/** The offline analysis of a history record: article and reply counts,
    media counts and URL samples, text samples, and which of a fixed list of
    topic keywords occur in the record's text. */
module ManualAnalysis {
  import opened History
  import opened MediaUrls
  import opened Text

  datatype MediaSummary = MediaSummary(totalImages: nat, totalVideos: nat, imageUrls: seq<string>,
                                       videoUrls: seq<string>, hasMediaContent: bool)

  datatype Analysis = Analysis(uid: string, articleCount: nat, totalComments: nat,
                               contentKeywords: seq<string>, sampleContents: seq<string>,
                               mediaSummary: MediaSummary)

  /** The topic keywords, in the order they are reported. */
  const KEYWORDS: seq<string> := ["小米", "SU7", "智驾", "安全", "事故", "爆燃", "责任", "技术", "电池", "自动驾驶"]

  const SPACE: string := " "

  // ---------------------------------------------------------------------
  // Reply counts

  /** Replies listed under the groups, empty ones included. */
  function GroupsReplyTotal(groups: seq<CommentGroup>): nat
  {
    if groups == [] then 0
    else GroupsReplyTotal(groups[..|groups| - 1]) + |groups[|groups| - 1].items|
  }

  /** Replies listed under all articles of the record. */
  function ReplyTotal(articles: seq<Article>): nat
  {
    if articles == [] then 0
    else ReplyTotal(articles[..|articles| - 1]) + GroupsReplyTotal(articles[|articles| - 1].comments)
  }

  lemma GroupsReplyTotalStep(groups: seq<CommentGroup>, g: nat)
    requires g < |groups|
    ensures GroupsReplyTotal(groups[..g + 1]) == GroupsReplyTotal(groups[..g]) + |groups[g].items|
  {
    assert groups[..g + 1][..g] == groups[..g];
  }

  lemma ReplyTotalStep(articles: seq<Article>, i: nat)
    requires i < |articles|
    ensures ReplyTotal(articles[..i + 1]) == ReplyTotal(articles[..i]) + GroupsReplyTotal(articles[i].comments)
  {
    assert articles[..i + 1][..i] == articles[..i];
  }

  /** Replies contribute no text samples. */
  lemma {:induction false} NoReplySamples(groups: seq<CommentGroup>)
    ensures GroupsGather(groups, ContentSamples) == []
  {
    if groups != [] {
      NoReplySamples(groups[..|groups| - 1]);
      NoItemSamples(groups[|groups| - 1].items);
    }
  }

  lemma {:induction false} NoItemSamples(items: seq<CommentItem>)
    ensures ItemsGather(items, ContentSamples) == []
  {
    if items != [] {
      NoItemSamples(items[..|items| - 1]);
    }
  }

  // ---------------------------------------------------------------------
  // Keyword search

  /** The parts separated by `sep`, as Python's `sep.join(parts)`. */
  function Join(parts: seq<string>, sep: string): string
  {
    if parts == [] then ""
    else if |parts| == 1 then parts[0]
    else Join(parts[..|parts| - 1], sep) + sep + parts[|parts| - 1]
  }

  /** The keywords of `kws` that occur in `text`, in the order of `kws`. */
  function KeywordsIn(kws: seq<string>, text: string): (r: seq<string>)
    ensures forall k :: k in r <==> k in kws && Contains(text, k)
    ensures |r| <= |kws|
  {
    if kws == [] then []
    else (if Contains(text, kws[0]) then [kws[0]] else []) + KeywordsIn(kws[1..], text)
  }

  /** The reported keywords keep the order of the keyword list. */
  lemma {:induction false} KeywordsInOrder(kws: seq<string>, text: string)
    requires NoDuplicates(kws)
    ensures NoDuplicates(KeywordsIn(kws, text))
    ensures forall i, j :: 0 <= i < j < |KeywordsIn(kws, text)| ==>
      FirstIndex(kws, KeywordsIn(kws, text)[i]) < FirstIndex(kws, KeywordsIn(kws, text)[j])
  {
    if kws != [] {
      var rest := KeywordsIn(kws[1..], text);
      KeywordsInOrder(kws[1..], text);
      forall k | k in rest ensures FirstIndex(kws, k) == 1 + FirstIndex(kws[1..], k) {
        assert k in kws[1..];
      }
    }
  }

  /** Every part of a joined text occurs in it. */
  lemma {:induction false} PartOccursInJoin(parts: seq<string>, sep: string, j: nat)
    requires j < |parts|
    ensures Contains(Join(parts, sep), parts[j])
  {
    var whole := Join(parts, sep);
    if |parts| == 1 {
      assert OccursAt(whole, parts[j], 0);
    } else {
      var init := parts[..|parts| - 1];
      var joined := Join(init, sep);
      assert whole == joined + sep + parts[|parts| - 1];
      if j == |parts| - 1 {
        assert OccursAt(whole, parts[j], |joined| + |sep|);
      } else {
        PartOccursInJoin(init, sep, j);
        var i: nat :| i <= |joined| && OccursAt(joined, init[j], i);
        assert whole[i..i + |init[j]|] == joined[i..i + |init[j]|];
        assert OccursAt(whole, parts[j], i);
      }
    }
  }

  /** An occurrence of a pattern without spaces cannot cover the space
      between two joined texts. */
  lemma NoOccurrenceAcrossSpace(a: string, b: string, pat: string, i: nat)
    requires ' ' !in pat
    requires OccursAt(a + SPACE + b, pat, i)
    ensures i + |pat| <= |a| || i > |a|
  {
    var whole := a + SPACE + b;
    assert forall q :: i <= q < i + |pat| ==> whole[q] == pat[q - i];
    assert whole[|a|] == ' ';
  }

  /** A pattern without spaces that occurs in a space-joined text lies
      within one of the parts. */
  lemma {:induction false} OccurrenceInJoinIsInPart(parts: seq<string>, pat: string, i: nat)
    requires pat != "" && ' ' !in pat
    requires OccursAt(Join(parts, SPACE), pat, i)
    ensures exists j :: 0 <= j < |parts| && Contains(parts[j], pat)
  {
    var whole := Join(parts, SPACE);
    if |parts| == 1 {
      assert Contains(parts[0], pat);
    } else {
      var init := parts[..|parts| - 1];
      var last := parts[|parts| - 1];
      var joined := Join(init, SPACE);
      assert whole == joined + SPACE + last;
      NoOccurrenceAcrossSpace(joined, last, pat, i);
      if i + |pat| <= |joined| {
        assert whole[i..i + |pat|] == joined[i..i + |pat|];
        OccurrenceInJoinIsInPart(init, pat, i);
        var j :| 0 <= j < |init| && Contains(init[j], pat);
        assert parts[j] == init[j];
      } else {
        var i' := i - |joined| - 1;
        assert whole[i..i + |pat|] == last[i'..i' + |pat|];
        assert OccursAt(last, pat, i');
      }
    }
  }

  /** Each keyword is non-empty and holds no space. */
  lemma KeywordsHaveNoSpace()
    ensures forall k :: k in KEYWORDS ==> k != "" && ' ' !in k
    ensures NoDuplicates(KEYWORDS)
  {
  }

  /** The pattern occurs in one of the texts. */
  predicate InSomeText(texts: seq<string>, k: string)
  {
    exists j :: 0 <= j < |texts| && Contains(texts[j], k)
  }

  /** A pattern without spaces occurs in texts joined with spaces exactly
      when it occurs in one of them: joining neither hides an occurrence nor
      creates one across two texts. */
  lemma JoinedContains(texts: seq<string>, k: string)
    requires k != "" && ' ' !in k
    ensures Contains(Join(texts, SPACE), k) <==> InSomeText(texts, k)
  {
    JoinedContainsOnlyParts(texts, k);
    forall j | 0 <= j < |texts| && Contains(texts[j], k)
      ensures Contains(Join(texts, SPACE), k)
    {
      PartOccursInJoin(texts, SPACE, j);
      ContainsTransitive(Join(texts, SPACE), texts[j], k);
    }
  }

  lemma JoinedContainsOnlyParts(texts: seq<string>, k: string)
    requires k != "" && ' ' !in k
    ensures Contains(Join(texts, SPACE), k) ==> InSomeText(texts, k)
  {
    if Contains(Join(texts, SPACE), k) {
      var i: nat :| i <= |Join(texts, SPACE)| && OccursAt(Join(texts, SPACE), k, i);
      OccurrenceInJoinIsInPart(texts, k, i);
    }
  }

  // ---------------------------------------------------------------------
  // The running tally

  /** What the pass accumulates: the reply count, the collected texts, the
      text samples, the media counts, the URL samples and the media flag. */
  datatype Tally = Tally(replies: nat, texts: seq<string>, samples: seq<string>,
                         images: nat, videos: nat, imageUrls: seq<string>,
                         videoUrls: seq<string>, hasMedia: bool)

  const EMPTY_TALLY := Tally(0, [], [], 0, 0, [], [], false)

  /** Tallies combine field by field; the media flag is set when either is. */
  function Plus(a: Tally, b: Tally): Tally
  {
    Tally(a.replies + b.replies, a.texts + b.texts, a.samples + b.samples,
          a.images + b.images, a.videos + b.videos, a.imageUrls + b.imageUrls,
          a.videoUrls + b.videoUrls, a.hasMedia || b.hasMedia)
  }

  lemma PlusAssoc(a: Tally, b: Tally, c: Tally)
    ensures Plus(Plus(a, b), c) == Plus(a, Plus(b, c))
  {
    AppendAssoc(a.texts, b.texts, c.texts);
    AppendAssoc(a.samples, b.samples, c.samples);
    AppendAssoc(a.imageUrls, b.imageUrls, c.imageUrls);
    AppendAssoc(a.videoUrls, b.videoUrls, c.videoUrls);
  }

  lemma PlusEmpty(t: Tally)
    ensures Plus(t, EMPTY_TALLY) == t
  {
    AppendEmpty(t.texts);
    AppendEmpty(t.samples);
    AppendEmpty(t.imageUrls);
    AppendEmpty(t.videoUrls);
  }

  /** The tally of some parts of a record, given what a traversal of them
      gathers for each field; the media flag is set exactly when a media
      URL was counted. */
  function MakeTally(replies: nat, texts: seq<string>, samples: seq<string>, imageAll: seq<string>,
                     videoAll: seq<string>, imageSamples: seq<string>, videoSamples: seq<string>): Tally
  {
    Tally(replies, texts, samples, |imageAll|, |videoAll|, imageSamples, videoSamples,
          |imageAll| + |videoAll| > 0)
  }

  /** Combining two tallies made from traversals is the tally of the
      concatenated traversals. */
  lemma PlusMake(r1: nat, t1: seq<string>, s1: seq<string>, ia1: seq<string>, va1: seq<string>, is1: seq<string>, vs1: seq<string>,
                 r2: nat, t2: seq<string>, s2: seq<string>, ia2: seq<string>, va2: seq<string>, is2: seq<string>, vs2: seq<string>)
    ensures Plus(MakeTally(r1, t1, s1, ia1, va1, is1, vs1), MakeTally(r2, t2, s2, ia2, va2, is2, vs2)) ==
      MakeTally(r1 + r2, t1 + t2, s1 + s2, ia1 + ia2, va1 + va2, is1 + is2, vs1 + vs2)
  {
  }

  /** What one reply contributes. */
  function ItemTally(it: CommentItem): Tally
  {
    MakeTally(0, ItemPart(it, Texts), ItemPart(it, ContentSamples), ItemPart(it, Urls(Image)),
              ItemPart(it, Urls(Video)), ItemPart(it, UrlSamples(Image)), ItemPart(it, UrlSamples(Video)))
  }

  /** A reply adds its text when non-empty, its media counts, its first
      image and first video URL, and sets the flag when it carries media. */
  lemma ItemTallyFields(it: CommentItem)
    ensures ItemTally(it) ==
      Tally(0, if it.content != "" then [it.content] else [], [], |it.images|, |it.videos|,
            Take(it.images, 1), Take(it.videos, 1), it.images != [] || it.videos != [])
  {
  }

  /** What an article contributes itself, before its comments. */
  function ArticleTally(a: Article): Tally
  {
    MakeTally(0, ArticlePart(a, Texts), ArticlePart(a, ContentSamples), ArticlePart(a, Urls(Image)),
              ArticlePart(a, Urls(Video)), ArticlePart(a, UrlSamples(Image)), ArticlePart(a, UrlSamples(Video)))
  }

  /** An article adds its text and a sample of it when the text is
      non-empty, its media counts, its first two image and video URLs, and
      sets the flag when it carries media. */
  lemma ArticleTallyFields(a: Article)
    ensures ArticleTally(a) ==
      Tally(0, if a.content != "" then [a.content] else [],
            if a.content != "" then [Take(a.content, 100) + ELLIPSIS] else [],
            |a.images|, |a.videos|, Take(a.images, 2), Take(a.videos, 2), a.images != [] || a.videos != [])
  {
  }

  /** What a comment group contributes: its reply count, then its replies. */
  function GroupTally(group: CommentGroup): Tally
  {
    MakeTally(|group.items|, ItemsGather(group.items, Texts), ItemsGather(group.items, ContentSamples),
              ItemsGather(group.items, Urls(Image)), ItemsGather(group.items, Urls(Video)),
              ItemsGather(group.items, UrlSamples(Image)), ItemsGather(group.items, UrlSamples(Video)))
  }

  function ItemsTally(items: seq<CommentItem>): Tally
  {
    MakeTally(0, ItemsGather(items, Texts), ItemsGather(items, ContentSamples), ItemsGather(items, Urls(Image)),
              ItemsGather(items, Urls(Video)), ItemsGather(items, UrlSamples(Image)), ItemsGather(items, UrlSamples(Video)))
  }

  function GroupsTally(groups: seq<CommentGroup>): Tally
  {
    MakeTally(GroupsReplyTotal(groups), GroupsGather(groups, Texts), GroupsGather(groups, ContentSamples),
              GroupsGather(groups, Urls(Image)), GroupsGather(groups, Urls(Video)),
              GroupsGather(groups, UrlSamples(Image)), GroupsGather(groups, UrlSamples(Video)))
  }

  /** The tally of a whole record. */
  function RecordTally(articles: seq<Article>): Tally
  {
    MakeTally(ReplyTotal(articles), Gather(articles, Texts), Gather(articles, ContentSamples),
              Gather(articles, Urls(Image)), Gather(articles, Urls(Video)),
              Gather(articles, UrlSamples(Image)), Gather(articles, UrlSamples(Video)))
  }

  lemma EmptyTallies()
    ensures ItemsTally([]) == EMPTY_TALLY && GroupsTally([]) == EMPTY_TALLY && RecordTally([]) == EMPTY_TALLY
  {
  }

  lemma ItemsTallyStep(items: seq<CommentItem>, k: nat)
    requires k < |items|
    ensures ItemsTally(items[..k + 1]) == Plus(ItemsTally(items[..k]), ItemTally(items[k]))
  {
    var init := items[..k];
    var it := items[k];
    PlusMake(0, ItemsGather(init, Texts), ItemsGather(init, ContentSamples), ItemsGather(init, Urls(Image)),
             ItemsGather(init, Urls(Video)), ItemsGather(init, UrlSamples(Image)), ItemsGather(init, UrlSamples(Video)),
             0, ItemPart(it, Texts), ItemPart(it, ContentSamples), ItemPart(it, Urls(Image)),
             ItemPart(it, Urls(Video)), ItemPart(it, UrlSamples(Image)), ItemPart(it, UrlSamples(Video)));
    ItemsGatherStep(items, k, Texts);
    ItemsGatherStep(items, k, ContentSamples);
    ItemsGatherStep(items, k, Urls(Image));
    ItemsGatherStep(items, k, Urls(Video));
    ItemsGatherStep(items, k, UrlSamples(Image));
    ItemsGatherStep(items, k, UrlSamples(Video));
  }

  lemma GroupsTallyStep(groups: seq<CommentGroup>, g: nat)
    requires g < |groups|
    ensures GroupsTally(groups[..g + 1]) == Plus(GroupsTally(groups[..g]), GroupTally(groups[g]))
  {
    var init := groups[..g];
    var items := groups[g].items;
    GroupsReplyTotalStep(groups, g);
    GroupsGatherStep(groups, g, Texts);
    GroupsGatherStep(groups, g, ContentSamples);
    GroupsGatherStep(groups, g, Urls(Image));
    GroupsGatherStep(groups, g, Urls(Video));
    GroupsGatherStep(groups, g, UrlSamples(Image));
    GroupsGatherStep(groups, g, UrlSamples(Video));
    PlusMake(GroupsReplyTotal(init), GroupsGather(init, Texts), GroupsGather(init, ContentSamples),
             GroupsGather(init, Urls(Image)), GroupsGather(init, Urls(Video)),
             GroupsGather(init, UrlSamples(Image)), GroupsGather(init, UrlSamples(Video)),
             |items|, ItemsGather(items, Texts), ItemsGather(items, ContentSamples),
             ItemsGather(items, Urls(Image)), ItemsGather(items, Urls(Video)),
             ItemsGather(items, UrlSamples(Image)), ItemsGather(items, UrlSamples(Video)));
  }

  lemma RecordTallyStep(articles: seq<Article>, i: nat)
    requires i < |articles|
    ensures RecordTally(articles[..i + 1]) ==
      Plus(Plus(RecordTally(articles[..i]), ArticleTally(articles[i])), GroupsTally(articles[i].comments))
  {
    RecordTallyStepCounts(articles, i);
    RecordTallyStepTexts(articles, i);
    RecordTallyStepUrls(articles, i);
  }

  lemma RecordTallyStepCounts(articles: seq<Article>, i: nat)
    requires i < |articles|
    ensures var sum := Plus(Plus(RecordTally(articles[..i]), ArticleTally(articles[i])), GroupsTally(articles[i].comments));
      var after := RecordTally(articles[..i + 1]);
      after.replies == sum.replies && after.images == sum.images && after.videos == sum.videos
  {
    ReplyTotalStep(articles, i);
    GatherStep(articles, i, Urls(Image));
    GatherStep(articles, i, Urls(Video));
  }

  lemma RecordTallyStepTexts(articles: seq<Article>, i: nat)
    requires i < |articles|
    ensures var sum := Plus(Plus(RecordTally(articles[..i]), ArticleTally(articles[i])), GroupsTally(articles[i].comments));
      var after := RecordTally(articles[..i + 1]);
      after.texts == sum.texts && after.samples == sum.samples
  {
    GatherStep(articles, i, Texts);
    GatherStep(articles, i, ContentSamples);
  }

  lemma RecordTallyStepUrls(articles: seq<Article>, i: nat)
    requires i < |articles|
    ensures var sum := Plus(Plus(RecordTally(articles[..i]), ArticleTally(articles[i])), GroupsTally(articles[i].comments));
      var after := RecordTally(articles[..i + 1]);
      after.imageUrls == sum.imageUrls && after.videoUrls == sum.videoUrls
  {
    GatherStep(articles, i, UrlSamples(Image));
    GatherStep(articles, i, UrlSamples(Video));
  }

  // ---------------------------------------------------------------------
  // The analysis

  /** The keywords of KEYWORDS that occur in the record's texts joined with
      spaces. */
  function RecordKeywords(articles: seq<Article>): seq<string>
  {
    KeywordsIn(KEYWORDS, Join(Gather(articles, Texts), SPACE))
  }

  /** One reply: its text when non-empty, its media counts, its first
      image and first video URL, and the media flag when it carries media. */
  method TallyReply(item: CommentItem, before: Tally) returns (t: Tally)
    ensures t == Plus(before, ItemTally(item))
  {
    t := before;
    if item.content != "" {
      t := t.(texts := t.texts + [item.content]);
    }
    t := t.(images := t.images + |item.images|, videos := t.videos + |item.videos|);
    t := t.(imageUrls := t.imageUrls + Take(item.images, 1), videoUrls := t.videoUrls + Take(item.videos, 1));
    if item.images != [] || item.videos != [] {
      t := t.(hasMedia := true);
    }
    AppendEmpty(before.samples);
    AppendEmpty(before.texts);
    ItemTallyFields(item);
  }

  /** The replies of one group, in order. */
  method TallyReplies(items: seq<CommentItem>, start: Tally) returns (t: Tally)
    ensures t == Plus(start, ItemsTally(items))
  {
    EmptyTallies();
    PlusEmpty(start);
    t := start;
    var k := 0;
    while k < |items|
      invariant 0 <= k <= |items|
      invariant t == Plus(start, ItemsTally(items[..k]))
    {
      t := TallyReply(items[k], t);
      ItemsTallyStep(items, k);
      PlusAssoc(start, ItemsTally(items[..k]), ItemTally(items[k]));
      k := k + 1;
    }
    assert items[..k] == items;
  }

  /** The comment groups of one article: each adds its reply count, then
      its replies. */
  method TallyGroups(groups: seq<CommentGroup>, start: Tally) returns (t: Tally)
    ensures t == Plus(start, GroupsTally(groups))
  {
    EmptyTallies();
    PlusEmpty(start);
    t := start;
    var g := 0;
    while g < |groups|
      invariant 0 <= g <= |groups|
      invariant t == Plus(start, GroupsTally(groups[..g]))
    {
      var items := groups[g].items;
      ghost var before := t;
      t := t.(replies := t.replies + |items|);
      AppendEmpty(before.texts);
      AppendEmpty(before.samples);
      AppendEmpty(before.imageUrls);
      AppendEmpty(before.videoUrls);
      t := TallyReplies(items, t);
      assert t == Plus(before, GroupTally(groups[g]));
      GroupsTallyStep(groups, g);
      PlusAssoc(start, GroupsTally(groups[..g]), GroupTally(groups[g]));
      g := g + 1;
    }
    assert groups[..g] == groups;
  }

  /** One article itself: its text and a 100-character sample of it when
      the text is non-empty, its media counts, its first two image and video
      URLs, and the media flag when it carries media. */
  method TallyArticle(article: Article, before: Tally) returns (t: Tally)
    ensures t == Plus(before, ArticleTally(article))
  {
    t := before;
    if article.content != "" {
      t := t.(texts := t.texts + [article.content], samples := t.samples + [Take(article.content, 100) + ELLIPSIS]);
    }
    t := t.(images := t.images + |article.images|, videos := t.videos + |article.videos|);
    t := t.(imageUrls := t.imageUrls + Take(article.images, 2), videoUrls := t.videoUrls + Take(article.videos, 2));
    if article.images != [] || article.videos != [] {
      t := t.(hasMedia := true);
    }
    AppendEmpty(before.texts);
    AppendEmpty(before.samples);
    ArticleTallyFields(article);
  }

  /** The articles in order: each article itself, then its comment groups. */
  method TallyArticles(articles: seq<Article>) returns (t: Tally)
    ensures t == RecordTally(articles)
  {
    EmptyTallies();
    t := EMPTY_TALLY;
    var i := 0;
    while i < |articles|
      invariant 0 <= i <= |articles|
      invariant t == RecordTally(articles[..i])
    {
      var article := articles[i];
      t := TallyArticle(article, t);
      t := TallyGroups(article.comments, t);
      RecordTallyStep(articles, i);
      i := i + 1;
    }
    assert articles[..i] == articles;
  }

  /** One pass over the record, then the keywords found in the collected
      texts joined with spaces. */
  method AnalyzeUserContent(user: UserHistory) returns (r: Analysis)
    ensures r.uid == user.uid && r.articleCount == |user.articles|
    ensures r.totalComments == ReplyTotal(user.articles)
    ensures r.sampleContents == Gather(user.articles, ContentSamples)
    ensures r.contentKeywords == RecordKeywords(user.articles)
    ensures r.mediaSummary.totalImages == |AllUrls(user.articles, Image)|
    ensures r.mediaSummary.totalVideos == |AllUrls(user.articles, Video)|
    ensures r.mediaSummary.imageUrls == Gather(user.articles, UrlSamples(Image))
    ensures r.mediaSummary.videoUrls == Gather(user.articles, UrlSamples(Video))
    ensures r.mediaSummary.hasMediaContent <==> r.mediaSummary.totalImages + r.mediaSummary.totalVideos > 0
    ensures r.mediaSummary.hasMediaContent <==> RecordCarriesMedia(user.articles)
  {
    var t := TallyArticles(user.articles);
    RecordMedia(user.articles);
    var found := KeywordsIn(KEYWORDS, Join(t.texts, SPACE));
    r := Analysis(user.uid, |user.articles|, t.replies, found, t.samples,
                  MediaSummary(t.images, t.videos, t.imageUrls, t.videoUrls, t.hasMedia));
  }

  // ---------------------------------------------------------------------
  // What the analysis reports

  predicate ItemCarriesMedia(it: CommentItem)
  {
    it.images != [] || it.videos != []
  }

  predicate ItemsCarryMedia(items: seq<CommentItem>)
  {
    exists k :: 0 <= k < |items| && ItemCarriesMedia(items[k])
  }

  predicate GroupsCarryMedia(groups: seq<CommentGroup>)
  {
    exists g :: 0 <= g < |groups| && ItemsCarryMedia(groups[g].items)
  }

  /** The article or one of the replies under it has an image or a video. */
  predicate ArticleCarriesMedia(a: Article)
  {
    a.images != [] || a.videos != [] || GroupsCarryMedia(a.comments)
  }

  predicate RecordCarriesMedia(articles: seq<Article>)
  {
    exists i :: 0 <= i < |articles| && ArticleCarriesMedia(articles[i])
  }

  lemma ItemsCarryStep(items: seq<CommentItem>)
    requires items != []
    ensures ItemsCarryMedia(items) <==>
      ItemsCarryMedia(items[..|items| - 1]) || ItemCarriesMedia(items[|items| - 1])
  {
    var init := items[..|items| - 1];
    if ItemsCarryMedia(init) {
      var k :| 0 <= k < |init| && ItemCarriesMedia(init[k]);
      assert items[k] == init[k];
    }
    if ItemsCarryMedia(items) {
      var k :| 0 <= k < |items| && ItemCarriesMedia(items[k]);
      if k < |init| {
        assert init[k] == items[k];
      }
    }
  }

  lemma {:induction false} ItemsMedia(items: seq<CommentItem>)
    ensures |ItemsGather(items, Urls(Image))| + |ItemsGather(items, Urls(Video))| > 0 <==> ItemsCarryMedia(items)
  {
    if items != [] {
      var init := items[..|items| - 1];
      var last := items[|items| - 1];
      ItemsMedia(init);
      ItemsCarryStep(items);
      assert ItemsGather(items, Urls(Image)) == ItemsGather(init, Urls(Image)) + last.images;
      assert ItemsGather(items, Urls(Video)) == ItemsGather(init, Urls(Video)) + last.videos;
    }
  }

  lemma GroupsCarryStep(groups: seq<CommentGroup>)
    requires groups != []
    ensures GroupsCarryMedia(groups) <==>
      GroupsCarryMedia(groups[..|groups| - 1]) || ItemsCarryMedia(groups[|groups| - 1].items)
  {
    var init := groups[..|groups| - 1];
    if GroupsCarryMedia(init) {
      var g :| 0 <= g < |init| && ItemsCarryMedia(init[g].items);
      assert groups[g] == init[g];
    }
    if GroupsCarryMedia(groups) {
      var g :| 0 <= g < |groups| && ItemsCarryMedia(groups[g].items);
      if g < |init| {
        assert init[g] == groups[g];
      }
    }
  }

  lemma {:induction false} GroupsMedia(groups: seq<CommentGroup>)
    ensures |GroupsGather(groups, Urls(Image))| + |GroupsGather(groups, Urls(Video))| > 0 <==> GroupsCarryMedia(groups)
  {
    if groups != [] {
      var init := groups[..|groups| - 1];
      var last := groups[|groups| - 1];
      GroupsMedia(init);
      ItemsMedia(last.items);
      GroupsCarryStep(groups);
      assert GroupsGather(groups, Urls(Image)) == GroupsGather(init, Urls(Image)) + ItemsGather(last.items, Urls(Image));
      assert GroupsGather(groups, Urls(Video)) == GroupsGather(init, Urls(Video)) + ItemsGather(last.items, Urls(Video));
    }
  }

  lemma RecordCarryStep(articles: seq<Article>)
    requires articles != []
    ensures RecordCarriesMedia(articles) <==>
      RecordCarriesMedia(articles[..|articles| - 1]) || ArticleCarriesMedia(articles[|articles| - 1])
  {
    var init := articles[..|articles| - 1];
    if RecordCarriesMedia(init) {
      var i :| 0 <= i < |init| && ArticleCarriesMedia(init[i]);
      assert articles[i] == init[i];
    }
    if RecordCarriesMedia(articles) {
      var i :| 0 <= i < |articles| && ArticleCarriesMedia(articles[i]);
      if i < |init| {
        assert init[i] == articles[i];
      }
    }
  }

  /** Some media URL is counted exactly when some article or reply carries
      an image or a video. */
  lemma {:induction false} RecordMedia(articles: seq<Article>)
    ensures |AllUrls(articles, Image)| + |AllUrls(articles, Video)| > 0 <==> RecordCarriesMedia(articles)
  {
    if articles != [] {
      var init := articles[..|articles| - 1];
      var last := articles[|articles| - 1];
      RecordMedia(init);
      GroupsMedia(last.comments);
      RecordCarryStep(articles);
      assert AllUrls(articles, Image) == AllUrls(init, Image) + last.images + GroupsGather(last.comments, Urls(Image));
      assert AllUrls(articles, Video) == AllUrls(init, Video) + last.videos + GroupsGather(last.comments, Urls(Video));
    }
  }

  lemma {:induction false} ItemsUrlSamples(items: seq<CommentItem>, kind: MediaKind)
    ensures |ItemsGather(items, UrlSamples(kind))| <= |ItemsGather(items, Urls(kind))|
    ensures |ItemsGather(items, UrlSamples(kind))| <= |items|
    ensures forall u :: u in ItemsGather(items, UrlSamples(kind)) ==> u in ItemsGather(items, Urls(kind))
  {
    if items != [] {
      ItemsUrlSamples(items[..|items| - 1], kind);
    }
  }

  lemma {:induction false} GroupsUrlSamples(groups: seq<CommentGroup>, kind: MediaKind)
    ensures |GroupsGather(groups, UrlSamples(kind))| <= |GroupsGather(groups, Urls(kind))|
    ensures |GroupsGather(groups, UrlSamples(kind))| <= GroupsReplyTotal(groups)
    ensures forall u :: u in GroupsGather(groups, UrlSamples(kind)) ==> u in GroupsGather(groups, Urls(kind))
  {
    if groups != [] {
      GroupsUrlSamples(groups[..|groups| - 1], kind);
      ItemsUrlSamples(groups[|groups| - 1].items, kind);
    }
  }

  /** The URL samples are URLs of the record, at most two per article and
      one per reply. */
  lemma {:induction false} RecordUrlSamples(articles: seq<Article>, kind: MediaKind)
    ensures |Gather(articles, UrlSamples(kind))| <= |AllUrls(articles, kind)|
    ensures |Gather(articles, UrlSamples(kind))| <= 2 * |articles| + ReplyTotal(articles)
    ensures forall u :: u in Gather(articles, UrlSamples(kind)) ==> u in AllUrls(articles, kind)
  {
    if articles != [] {
      RecordUrlSamples(articles[..|articles| - 1], kind);
      GroupsUrlSamples(articles[|articles| - 1].comments, kind);
    }
  }

  /** One text sample per article with text: its first 100 characters
      followed by "...". */
  lemma {:induction false} RecordContentSamples(articles: seq<Article>)
    ensures |Gather(articles, ContentSamples)| <= |articles|
    ensures forall x :: x in Gather(articles, ContentSamples) ==>
      exists i :: 0 <= i < |articles| && articles[i].content != "" && x == Take(articles[i].content, 100) + ELLIPSIS
  {
    if articles != [] {
      var init := articles[..|articles| - 1];
      RecordContentSamples(init);
      NoReplySamples(articles[|articles| - 1].comments);
      assert forall i :: 0 <= i < |init| ==> init[i] == articles[i];
    }
  }

  /** Every non-empty article text is among the collected texts. */
  lemma {:induction false} ArticleTextCollected(articles: seq<Article>, i: nat)
    requires i < |articles| && articles[i].content != ""
    ensures articles[i].content in Gather(articles, Texts)
  {
    if i < |articles| - 1 {
      var init := articles[..|articles| - 1];
      ArticleTextCollected(init, i);
    }
  }

  /** The keywords reported for some texts: taken from the list in its
      order, each once, and each present exactly when it occurs in one of
      the texts. */
  lemma KeywordsReported(kws: seq<string>, texts: seq<string>)
    requires NoDuplicates(kws)
    requires forall k :: k in kws ==> k != "" && ' ' !in k
    ensures NoDuplicates(KeywordsIn(kws, Join(texts, SPACE)))
    ensures forall i, j :: 0 <= i < j < |KeywordsIn(kws, Join(texts, SPACE))| ==>
      FirstIndex(kws, KeywordsIn(kws, Join(texts, SPACE))[i]) < FirstIndex(kws, KeywordsIn(kws, Join(texts, SPACE))[j])
    ensures forall k :: k in KeywordsIn(kws, Join(texts, SPACE)) <==>
      k in kws && InSomeText(texts, k)
  {
    KeywordsInOrder(kws, Join(texts, SPACE));
    forall k | k in kws
      ensures Contains(Join(texts, SPACE), k) <==> InSomeText(texts, k)
    {
      JoinedContains(texts, k);
    }
  }

  /** The keywords of a record: from KEYWORDS in its order, each once, and
      each present exactly when it occurs in one collected text. */
  lemma RecordKeywordsReported(articles: seq<Article>)
    ensures NoDuplicates(RecordKeywords(articles))
    ensures forall i, j :: 0 <= i < j < |RecordKeywords(articles)| ==>
      FirstIndex(KEYWORDS, RecordKeywords(articles)[i]) < FirstIndex(KEYWORDS, RecordKeywords(articles)[j])
    ensures forall k :: k in RecordKeywords(articles) <==>
      k in KEYWORDS && InSomeText(Gather(articles, Texts), k)
  {
    var texts := Gather(articles, Texts);
    KeywordsHaveNoSpace();
    var found := KeywordsIn(KEYWORDS, Join(texts, SPACE));
    KeywordsReported(KEYWORDS, texts);
    assert RecordKeywords(articles) == found;
  }
}
