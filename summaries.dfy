/** The two bounded text digests of a history record that go into the
    prompts: the content summary (first 3 articles, article text cut to 200
    characters, group headings, at most 10 comment lines per article) and
    the text summary (first 2 articles, full article text, at most 8 comment
    lines per article).  Both look at no more than the first 3 replies of a
    group.  A summary is kept as its list of lines, each line a structured
    value; the wording of the lines and their joining with newlines are not
    part of this model. */
module Summaries {
  import opened History

  datatype Line =
    // content summary: heading "article i (ID: id)", the excerpt line, the
    // comment-count heading, a group heading, a reply line
    | ArticleHeading(index: nat, articleId: string)
    | ArticleExcerpt(excerpt: string)
    | CommentsHeading(groupCount: nat)
    | GroupHeading(parentComment: string)
    | Comment(text: string)
    // text summary: heading "article i", the full text, the comments banner,
    // a reply line naming its parent ("" for a top-level comment)
    | NumberedHeading(number: nat)
    | ArticleBody(body: string)
    | CommentsBanner
    | ThreadComment(parent: string, reply: string)
    // the empty line that closes every article in both summaries
    | Separator

  predicate IsComment(l: Line)
  {
    l.Comment? || l.ThreadComment?
  }

  function CommentCount(ls: seq<Line>): nat
  {
    if ls == [] then 0 else (if IsComment(ls[0]) then 1 else 0) + CommentCount(ls[1..])
  }

  function SeparatorCount(ls: seq<Line>): nat
  {
    if ls == [] then 0 else (if ls[0].Separator? then 1 else 0) + SeparatorCount(ls[1..])
  }

  lemma {:induction false} CountsAppend(a: seq<Line>, b: seq<Line>)
    ensures CommentCount(a + b) == CommentCount(a) + CommentCount(b)
    ensures SeparatorCount(a + b) == SeparatorCount(a) + SeparatorCount(b)
  {
    if a != [] {
      CountsAppend(a[1..], b);
      assert (a + b)[1..] == a[1..] + b;
    } else {
      assert a + b == b;
    }
  }

  /** The lines up to and including the n-th comment line; all of them when
      there are fewer.  This is what a running comment counter that stops
      as soon as it reaches n lets through. */
  function TakeComments(ls: seq<Line>, n: nat): seq<Line>
  {
    if ls == [] || n == 0 then []
    else if IsComment(ls[0]) then [ls[0]] + TakeComments(ls[1..], n - 1)
    else [ls[0]] + TakeComments(ls[1..], n)
  }

  /** The cap keeps a prefix holding min(n, all) comment lines. */
  lemma {:induction false} TakeCommentsCount(ls: seq<Line>, n: nat)
    ensures TakeComments(ls, n) <= ls
    ensures CommentCount(TakeComments(ls, n)) == Min(n, CommentCount(ls))
  {
    if ls != [] && n != 0 {
      if IsComment(ls[0]) {
        TakeCommentsCount(ls[1..], n - 1);
      } else {
        TakeCommentsCount(ls[1..], n);
      }
    }
  }

  /** Below the cap nothing is dropped. */
  lemma {:induction false} TakeCommentsAll(ls: seq<Line>, n: nat)
    requires CommentCount(ls) < n
    ensures TakeComments(ls, n) == ls
  {
    if ls != [] {
      if IsComment(ls[0]) {
        TakeCommentsAll(ls[1..], n - 1);
      } else {
        TakeCommentsAll(ls[1..], n);
      }
    }
  }

  /** A prefix that ends on its n-th comment line is exactly what the cap keeps. */
  lemma {:induction false} TakeCommentsCut(p: seq<Line>, ls: seq<Line>, n: nat)
    requires p <= ls && p != [] && IsComment(p[|p| - 1])
    requires CommentCount(p) == n
    ensures TakeComments(ls, n) == p
  {
    if |p| == 1 {
      assert ls[0] == p[0];
      assert TakeComments(ls, n) == [ls[0]] + TakeComments(ls[1..], 0);
    } else {
      assert ls[0] == p[0];
      assert p[1..] <= ls[1..];
      assert p[1..][|p[1..]| - 1] == p[|p| - 1];
      if IsComment(p[0]) {
        TakeCommentsCut(p[1..], ls[1..], n - 1);
      } else {
        TakeCommentsCut(p[1..], ls[1..], n);
      }
    }
  }

  // ---------------------------------------------------------------------
  // The comment listing of one article

  const ITEMS_PER_GROUP: nat := 3

  /** The content summary puts a heading before each group and a plain reply
      line per reply; the text summary writes only reply lines, each naming
      its parent. */
  datatype Style = Headed | Threaded

  /** The line a reply contributes: one line when its text is non-empty. */
  function ReplyLine(style: Style, parent: string, it: CommentItem): seq<Line>
  {
    if it.content == "" then []
    else if style == Headed then [Comment(it.content)]
    else [ThreadComment(parent, it.content)]
  }

  function ReplyLines(style: Style, parent: string, items: seq<CommentItem>): seq<Line>
  {
    if items == [] then []
    else ReplyLines(style, parent, items[..|items| - 1]) + ReplyLine(style, parent, items[|items| - 1])
  }

  function GroupHead(style: Style, g: CommentGroup): seq<Line>
  {
    if style == Headed then [GroupHeading(g.parentComment)] else []
  }

  /** All a group contributes when no cap intervenes: its heading, if any,
      then the lines of its first three replies. */
  function GroupLines(style: Style, g: CommentGroup): seq<Line>
  {
    GroupHead(style, g) + ReplyLines(style, g.parentComment, Take(g.items, ITEMS_PER_GROUP))
  }

  /** The uncapped listing of an article's comment groups. */
  function CommentLines(style: Style, groups: seq<CommentGroup>): seq<Line>
  {
    if groups == [] then []
    else CommentLines(style, groups[..|groups| - 1]) + GroupLines(style, groups[|groups| - 1])
  }

  /** Number of replies with non-empty text. */
  function NonEmptyReplies(items: seq<CommentItem>): nat
  {
    if items == [] then 0
    else NonEmptyReplies(items[..|items| - 1]) + (if items[|items| - 1].content != "" then 1 else 0)
  }

  /** Replies with non-empty text among the first three of each group. */
  function EligibleReplies(groups: seq<CommentGroup>): nat
  {
    if groups == [] then 0
    else EligibleReplies(groups[..|groups| - 1]) + NonEmptyReplies(Take(groups[|groups| - 1].items, ITEMS_PER_GROUP))
  }

  lemma ReplyLinesStep(style: Style, parent: string, items: seq<CommentItem>, k: nat)
    requires k < |items|
    ensures ReplyLines(style, parent, items[..k + 1]) ==
      ReplyLines(style, parent, items[..k]) + ReplyLine(style, parent, items[k])
  {
    assert items[..k + 1][..k] == items[..k];
  }

  lemma CommentLinesStep(style: Style, groups: seq<CommentGroup>, g: nat)
    requires g < |groups|
    ensures CommentLines(style, groups[..g + 1]) == CommentLines(style, groups[..g]) + GroupLines(style, groups[g])
  {
    assert groups[..g + 1][..g] == groups[..g];
  }

  lemma {:induction false} ReplyLinesPrefix(style: Style, parent: string, items: seq<CommentItem>, k: nat)
    requires k <= |items|
    ensures ReplyLines(style, parent, items[..k]) <= ReplyLines(style, parent, items)
    decreases |items| - k
  {
    if k < |items| {
      ReplyLinesPrefix(style, parent, items, k + 1);
      ReplyLinesStep(style, parent, items, k);
    } else {
      assert items[..k] == items;
    }
  }

  lemma {:induction false} CommentLinesPrefix(style: Style, groups: seq<CommentGroup>, g: nat)
    requires g <= |groups|
    ensures CommentLines(style, groups[..g]) <= CommentLines(style, groups)
    decreases |groups| - g
  {
    if g < |groups| {
      CommentLinesPrefix(style, groups, g + 1);
      CommentLinesStep(style, groups, g);
    } else {
      assert groups[..g] == groups;
    }
  }

  /** Every reply line comes from a reply with non-empty text, so the
      listing holds exactly as many comment lines as there are eligible
      replies, at most three per group. */
  lemma {:induction false} ReplyLinesCount(style: Style, parent: string, items: seq<CommentItem>)
    ensures CommentCount(ReplyLines(style, parent, items)) == NonEmptyReplies(items) <= |items|
    ensures SeparatorCount(ReplyLines(style, parent, items)) == 0
  {
    if items != [] {
      var init := items[..|items| - 1];
      ReplyLinesCount(style, parent, init);
      CountsAppend(ReplyLines(style, parent, init), ReplyLine(style, parent, items[|items| - 1]));
    }
  }

  lemma {:induction false} CommentLinesCount(style: Style, groups: seq<CommentGroup>)
    ensures CommentCount(CommentLines(style, groups)) == EligibleReplies(groups)
    ensures SeparatorCount(CommentLines(style, groups)) == 0
    ensures forall g :: 0 <= g < |groups| ==> CommentCount(GroupLines(style, groups[g])) <= ITEMS_PER_GROUP
  {
    if groups != [] {
      var init := groups[..|groups| - 1];
      var last := groups[|groups| - 1];
      CommentLinesCount(style, init);
      forall g | 0 <= g < |groups|
        ensures CommentCount(GroupLines(style, groups[g])) <= ITEMS_PER_GROUP
      {
        var items := Take(groups[g].items, ITEMS_PER_GROUP);
        ReplyLinesCount(style, groups[g].parentComment, items);
        CountsAppend(GroupHead(style, groups[g]), ReplyLines(style, groups[g].parentComment, items));
      }
      ReplyLinesCount(style, last.parentComment, Take(last.items, ITEMS_PER_GROUP));
      CountsAppend(GroupHead(style, last), ReplyLines(style, last.parentComment, Take(last.items, ITEMS_PER_GROUP)));
      CountsAppend(CommentLines(style, init), GroupLines(style, last));
    }
  }

  /** When the counter reaches n on the k-th shown reply of group g, the
      lines written so far are what the cap keeps of the whole listing. */
  lemma CutAtReply(style: Style, groups: seq<CommentGroup>, g: nat, k: nat, n: nat)
    requires g < |groups| && k < |Take(groups[g].items, ITEMS_PER_GROUP)|
    requires Take(groups[g].items, ITEMS_PER_GROUP)[k].content != ""
    requires CommentCount(CommentLines(style, groups[..g]) + GroupHead(style, groups[g])
               + ReplyLines(style, groups[g].parentComment, Take(groups[g].items, ITEMS_PER_GROUP)[..k + 1])) == n
    ensures TakeComments(CommentLines(style, groups), n) ==
      CommentLines(style, groups[..g]) + GroupHead(style, groups[g])
        + ReplyLines(style, groups[g].parentComment, Take(groups[g].items, ITEMS_PER_GROUP)[..k + 1])
  {
    var parent := groups[g].parentComment;
    var items := Take(groups[g].items, ITEMS_PER_GROUP);
    var cut := CommentLines(style, groups[..g]) + GroupHead(style, groups[g]) + ReplyLines(style, parent, items[..k + 1]);
    CutEndsOnReply(style, parent, items, k, CommentLines(style, groups[..g]) + GroupHead(style, groups[g]));
    CutIsPrefix(style, groups, g, k);
    TakeCommentsCut(cut, CommentLines(style, groups), n);
  }

  /** Lines that end with the line of a reply with text end on a comment. */
  lemma CutEndsOnReply(style: Style, parent: string, items: seq<CommentItem>, k: nat, before: seq<Line>)
    requires k < |items| && items[k].content != ""
    ensures before + ReplyLines(style, parent, items[..k + 1]) != []
    ensures IsComment((before + ReplyLines(style, parent, items[..k + 1]))[|before + ReplyLines(style, parent, items[..k + 1])| - 1])
  {
    ReplyLinesStep(style, parent, items, k);
    var line := ReplyLine(style, parent, items[k]);
    assert |line| == 1 && IsComment(line[0]);
    var all := before + ReplyLines(style, parent, items[..k + 1]);
    assert all == (before + ReplyLines(style, parent, items[..k])) + line;
    assert all[|all| - 1] == line[0];
  }

  /** The listing up to the k-th shown reply of group g is a prefix of the
      whole listing. */
  lemma CutIsPrefix(style: Style, groups: seq<CommentGroup>, g: nat, k: nat)
    requires g < |groups| && k < |Take(groups[g].items, ITEMS_PER_GROUP)|
    ensures CommentLines(style, groups[..g]) + GroupHead(style, groups[g])
        + ReplyLines(style, groups[g].parentComment, Take(groups[g].items, ITEMS_PER_GROUP)[..k + 1])
      <= CommentLines(style, groups)
  {
    var parent := groups[g].parentComment;
    var items := Take(groups[g].items, ITEMS_PER_GROUP);
    var before := CommentLines(style, groups[..g]) + GroupHead(style, groups[g]);
    var shown := ReplyLines(style, parent, items[..k + 1]);
    var full := before + ReplyLines(style, parent, items);
    ReplyLinesPrefix(style, parent, items, k + 1);
    assert before + shown <= full;
    CommentLinesStep(style, groups, g);
    AppendAssoc(CommentLines(style, groups[..g]), GroupHead(style, groups[g]), ReplyLines(style, parent, items));
    assert full == CommentLines(style, groups[..g + 1]);
    CommentLinesPrefix(style, groups, g + 1);
    PrefixTransitive(before + shown, full, CommentLines(style, groups));
  }

  lemma PrefixTransitive(a: seq<Line>, b: seq<Line>, c: seq<Line>)
    requires a <= b && b <= c
    ensures a <= c
  {
    assert b[..|a|] == c[..|a|];
  }

  /** One reply through the counter: the lines grow by that reply's line and
      the comment count by one exactly when the reply has text. */
  lemma ReplyStep(style: Style, parent: string, items: seq<CommentItem>, k: nat, before: seq<Line>)
    requires k < |items|
    ensures before + ReplyLines(style, parent, items[..k + 1]) ==
      (before + ReplyLines(style, parent, items[..k])) + ReplyLine(style, parent, items[k])
    ensures items[k].content == "" ==>
      before + ReplyLines(style, parent, items[..k + 1]) == before + ReplyLines(style, parent, items[..k])
    ensures CommentCount(before + ReplyLines(style, parent, items[..k + 1])) ==
      CommentCount(before + ReplyLines(style, parent, items[..k])) + (if items[k].content != "" then 1 else 0)
  {
    AppendEmpty(before + ReplyLines(style, parent, items[..k]));
    ReplyLinesStep(style, parent, items, k);
    AppendAssoc(before, ReplyLines(style, parent, items[..k]), ReplyLine(style, parent, items[k]));
    CountsAppend(before + ReplyLines(style, parent, items[..k]), ReplyLine(style, parent, items[k]));
  }

  /** The replies of one group through the running counter: each reply with
      text adds its line and one to the counter, and the walk stops as soon
      as the counter reaches `limit`.  `reached` reports that stop and the
      reply it happened on. */
  method CappedReplies(style: Style, parent: string, items: seq<CommentItem>,
                       start: seq<Line>, startCount: nat, limit: nat)
    returns (lines: seq<Line>, commentCount: nat, ghost stop: nat)
    requires startCount == CommentCount(start) < limit
    ensures commentCount == CommentCount(lines) <= limit
    ensures commentCount < limit ==> lines == start + ReplyLines(style, parent, items)
    ensures commentCount == limit ==>
      stop < |items| && items[stop].content != "" && lines == start + ReplyLines(style, parent, items[..stop + 1])
  {
    lines := start;
    commentCount := startCount;
    stop := 0;
    AppendEmpty(start);
    var k := 0;
    while k < |items|
      invariant 0 <= k <= |items|
      invariant lines == start + ReplyLines(style, parent, items[..k])
      invariant commentCount == CommentCount(lines) < limit
    {
      var text := items[k].content;
      ReplyStep(style, parent, items, k, start);
      if text != "" {
        lines := lines + ReplyLine(style, parent, items[k]);
        commentCount := commentCount + 1;
        if commentCount >= limit {
          stop := k;
          return;
        }
      }
      k := k + 1;
    }
    assert items[..k] == items;
  }

  /** The heading the content summary writes before a group is the group's
      head, and it is not a comment line. */
  lemma AfterGroupHead(style: Style, groups: seq<CommentGroup>, g: nat, before: seq<Line>, after: seq<Line>)
    requires g < |groups| && before == CommentLines(style, groups[..g])
    requires after == if style == Headed then before + [GroupHeading(groups[g].parentComment)] else before
    ensures after == CommentLines(style, groups[..g]) + GroupHead(style, groups[g])
    ensures CommentCount(after) == CommentCount(before)
  {
    CountsAppend(before, [GroupHeading(groups[g].parentComment)]);
    AppendEmpty(before);
  }

  /** A group written in full extends the listing of the groups before it
      to the listing of one more group. */
  lemma AfterGroup(style: Style, groups: seq<CommentGroup>, g: nat, lines: seq<Line>)
    requires g < |groups|
    requires lines == CommentLines(style, groups[..g]) + GroupHead(style, groups[g])
      + ReplyLines(style, groups[g].parentComment, Take(groups[g].items, ITEMS_PER_GROUP))
    ensures lines == CommentLines(style, groups[..g + 1])
  {
    CommentLinesStep(style, groups, g);
    AppendAssoc(CommentLines(style, groups[..g]), GroupHead(style, groups[g]),
                ReplyLines(style, groups[g].parentComment, Take(groups[g].items, ITEMS_PER_GROUP)));
  }

  /** The comment lines a summary writes for one article: groups in order,
      at most the first three replies of each, and a running counter of
      reply lines that stops everything as soon as it reaches `limit`. */
  method CappedCommentLines(style: Style, groups: seq<CommentGroup>, limit: nat) returns (lines: seq<Line>)
    requires limit > 0
    ensures lines == TakeComments(CommentLines(style, groups), limit)
  {
    lines := [];
    var commentCount := 0;
    var g := 0;
    while g < |groups|
      invariant 0 <= g <= |groups|
      invariant lines == CommentLines(style, groups[..g])
      invariant commentCount == CommentCount(lines) < limit
    {
      var parent := groups[g].parentComment;
      ghost var before := lines;
      if style == Headed {
        lines := lines + [GroupHeading(parent)];
      }
      AfterGroupHead(style, groups, g, before, lines);
      var items := Take(groups[g].items, ITEMS_PER_GROUP);
      ghost var stop;
      lines, commentCount, stop := CappedReplies(style, parent, items, lines, commentCount, limit);
      if commentCount >= limit {
        CutAtReply(style, groups, g, stop, limit);
        return;
      }
      AfterGroup(style, groups, g, lines);
      g := g + 1;
    }
    if g == |groups| {
      assert groups[..g] == groups;
      TakeCommentsAll(lines, limit);
    }
  }

  /** Appending an article's section to the summary so far, in three steps. */
  lemma SectionAssembly(before: seq<Line>, section: seq<Line>, head: seq<Line>, body: seq<Line>)
    requires section == head + body + [Separator]
    ensures before + head + body + [Separator] == before + section
  {
    AppendAssoc(before, head, body);
    AppendAssoc(before, head + body, [Separator]);
  }

  // ---------------------------------------------------------------------
  // The text summary

  const TEXT_ARTICLE_LIMIT: nat := 2
  const TEXT_COMMENT_LIMIT: nat := 8

  /** What the text summary writes for its index-th article. */
  function TextSection(index: nat, a: Article): seq<Line>
  {
    (if a.content != "" then [NumberedHeading(index), ArticleBody(a.content)] else [])
    + (if a.comments != [] then [CommentsBanner] + TakeComments(CommentLines(Threaded, a.comments), TEXT_COMMENT_LIMIT) else [])
    + [Separator]
  }

  /** The sections of the first n articles, numbered from 1. */
  function TextSections(articles: seq<Article>, n: nat): seq<Line>
    requires n <= |articles|
  {
    if n == 0 then [] else TextSections(articles, n - 1) + TextSection(n, articles[n - 1])
  }

  lemma TextSectionsStep(articles: seq<Article>, i: nat)
    requires i < |articles|
    ensures TextSections(articles, i + 1) == TextSections(articles, i) + TextSection(i + 1, articles[i])
  {
  }

  function TextSummary(articles: seq<Article>): seq<Line>
  {
    TextSections(articles, Min(|articles|, TEXT_ARTICLE_LIMIT))
  }

  /** The lines of the text summary, in order. */
  method BuildTextContentSummary(articles: seq<Article>) returns (parts: seq<Line>)
    ensures parts == TextSummary(articles)
  {
    parts := [];
    var i := 0;
    // The source stops after the article numbered TEXT_ARTICLE_LIMIT.
    while i < Min(|articles|, TEXT_ARTICLE_LIMIT)
      invariant 0 <= i <= Min(|articles|, TEXT_ARTICLE_LIMIT)
      invariant parts == TextSections(articles, i)
    {
      var article := articles[i];
      var index := i + 1;
      ghost var before := parts;
      ghost var head: seq<Line> := [];
      if article.content != "" {
        parts := parts + [NumberedHeading(index), ArticleBody(article.content)];
        head := [NumberedHeading(index), ArticleBody(article.content)];
      } else {
        AppendEmpty(before);
      }
      ghost var body: seq<Line> := [];
      if article.comments != [] {
        var comments := CappedCommentLines(Threaded, article.comments, TEXT_COMMENT_LIMIT);
        parts := parts + [CommentsBanner];
        parts := parts + comments;
        body := [CommentsBanner] + comments;
        AppendAssoc(before + head, [CommentsBanner], comments);
      } else {
        AppendEmpty(before + head);
      }
      parts := parts + [Separator];
      SectionAssembly(before, TextSection(index, article), head, body);
      TextSectionsStep(articles, i);
      i := i + 1;
    }
  }

  // ---------------------------------------------------------------------
  // The content summary

  const CONTENT_ARTICLE_LIMIT: nat := 3
  const CONTENT_COMMENT_LIMIT: nat := 10
  const EXCERPT_LENGTH: nat := 200

  /** What the content summary writes for its index-th article. */
  function ContentSection(index: nat, a: Article): seq<Line>
  {
    (if a.content != "" then [ArticleHeading(index, a.id), ArticleExcerpt(Take(a.content, EXCERPT_LENGTH))] else [])
    + (if a.comments != [] then [CommentsHeading(|a.comments|)] + TakeComments(CommentLines(Headed, a.comments), CONTENT_COMMENT_LIMIT) else [])
    + [Separator]
  }

  function ContentSections(articles: seq<Article>, n: nat): seq<Line>
    requires n <= |articles|
  {
    if n == 0 then [] else ContentSections(articles, n - 1) + ContentSection(n, articles[n - 1])
  }

  lemma ContentSectionsStep(articles: seq<Article>, i: nat)
    requires i < |articles|
    ensures ContentSections(articles, i + 1) == ContentSections(articles, i) + ContentSection(i + 1, articles[i])
  {
  }

  function ContentSummary(articles: seq<Article>): seq<Line>
  {
    ContentSections(articles, Min(|articles|, CONTENT_ARTICLE_LIMIT))
  }

  /** The lines of the content summary, in order. */
  method BuildContentSummary(articles: seq<Article>) returns (parts: seq<Line>)
    ensures parts == ContentSummary(articles)
  {
    parts := [];
    var i := 0;
    // The source stops after the article numbered CONTENT_ARTICLE_LIMIT.
    while i < Min(|articles|, CONTENT_ARTICLE_LIMIT)
      invariant 0 <= i <= Min(|articles|, CONTENT_ARTICLE_LIMIT)
      invariant parts == ContentSections(articles, i)
    {
      var article := articles[i];
      var index := i + 1;
      ghost var before := parts;
      ghost var head: seq<Line> := [];
      if article.content != "" {
        parts := parts + [ArticleHeading(index, article.id), ArticleExcerpt(Take(article.content, EXCERPT_LENGTH))];
        head := [ArticleHeading(index, article.id), ArticleExcerpt(Take(article.content, EXCERPT_LENGTH))];
      } else {
        AppendEmpty(before);
      }
      ghost var body: seq<Line> := [];
      if article.comments != [] {
        var comments := CappedCommentLines(Headed, article.comments, CONTENT_COMMENT_LIMIT);
        parts := parts + [CommentsHeading(|article.comments|)];
        parts := parts + comments;
        body := [CommentsHeading(|article.comments|)] + comments;
        AppendAssoc(before + head, [CommentsHeading(|article.comments|)], comments);
      } else {
        AppendEmpty(before + head);
      }
      parts := parts + [Separator];
      SectionAssembly(before, ContentSection(index, article), head, body);
      ContentSectionsStep(articles, i);
      i := i + 1;
    }
  }

  // ---------------------------------------------------------------------
  // What the caps guarantee

  /** A prefix of a listing without separators has none either. */
  lemma NoSeparatorInPrefix(p: seq<Line>, ls: seq<Line>)
    requires p <= ls && SeparatorCount(ls) == 0
    ensures SeparatorCount(p) == 0
  {
    assert ls == p + ls[|p|..];
    CountsAppend(p, ls[|p|..]);
  }

  /** The capped comment listing of an article: min(limit, eligible) reply
      lines, at most three from any one group, and no separator. */
  lemma CappedListing(style: Style, groups: seq<CommentGroup>, limit: nat)
    ensures CommentCount(TakeComments(CommentLines(style, groups), limit)) == Min(limit, EligibleReplies(groups))
    ensures SeparatorCount(TakeComments(CommentLines(style, groups), limit)) == 0
    ensures forall g :: 0 <= g < |groups| ==> CommentCount(GroupLines(style, groups[g])) <= ITEMS_PER_GROUP
  {
    CommentLinesCount(style, groups);
    TakeCommentsCount(CommentLines(style, groups), limit);
    NoSeparatorInPrefix(TakeComments(CommentLines(style, groups), limit), CommentLines(style, groups));
  }

  lemma SingleCounts(l: Line)
    ensures CommentCount([l]) == (if IsComment(l) then 1 else 0)
    ensures SeparatorCount([l]) == (if l.Separator? then 1 else 0)
  {
    assert [l][1..] == [];
  }

  /** Neither an article heading nor its text is a comment or a separator. */
  lemma HeadCounts(x: Line, y: Line)
    requires !IsComment(x) && !x.Separator? && !IsComment(y) && !y.Separator?
    ensures CommentCount([x, y]) == 0 && SeparatorCount([x, y]) == 0
  {
    SingleCounts(x);
    SingleCounts(y);
    assert [x, y] == [x] + [y];
    CountsAppend([x], [y]);
  }

  /** Counts of a section made of a heading part, a comment part and the
      closing separator. */
  lemma SectionCounts(head: seq<Line>, opener: Line, listing: seq<Line>, hasComments: bool)
    requires CommentCount(head) == 0 && SeparatorCount(head) == 0
    requires !IsComment(opener) && !opener.Separator?
    requires SeparatorCount(listing) == 0
    ensures var section := head + (if hasComments then [opener] + listing else []) + [Separator];
      CommentCount(section) == (if hasComments then CommentCount(listing) else 0) &&
      SeparatorCount(section) == 1
  {
    var body := if hasComments then [opener] + listing else [];
    SingleCounts(opener);
    SingleCounts(Separator);
    CountsAppend([opener], listing);
    CountsAppend(head, body);
    CountsAppend(head + body, [Separator]);
  }

  /** Each article of the text summary gets a fresh counter: its section
      holds min(8, eligible replies of that article) comment lines and
      exactly one separator. */
  lemma {:induction false} TextSectionCounts(index: nat, a: Article)
    ensures CommentCount(TextSection(index, a)) ==
      (if a.comments == [] then 0 else Min(TEXT_COMMENT_LIMIT, EligibleReplies(a.comments)))
    ensures SeparatorCount(TextSection(index, a)) == 1
  {
    var head: seq<Line> := if a.content != "" then [NumberedHeading(index), ArticleBody(a.content)] else [];
    if a.content != "" {
      HeadCounts(NumberedHeading(index), ArticleBody(a.content));
    }
    var listing := TakeComments(CommentLines(Threaded, a.comments), TEXT_COMMENT_LIMIT);
    CappedListing(Threaded, a.comments, TEXT_COMMENT_LIMIT);
    SectionCounts(head, CommentsBanner, listing, a.comments != []);
  }

  /** Each article of the content summary: min(10, eligible replies of that
      article) comment lines, exactly one separator, and an excerpt of at
      most 200 characters that starts the article text. */
  lemma {:induction false} ContentSectionCounts(index: nat, a: Article)
    ensures CommentCount(ContentSection(index, a)) ==
      (if a.comments == [] then 0 else Min(CONTENT_COMMENT_LIMIT, EligibleReplies(a.comments)))
    ensures SeparatorCount(ContentSection(index, a)) == 1
    ensures forall l :: l in ContentSection(index, a) && l.ArticleExcerpt? ==>
      |l.excerpt| <= EXCERPT_LENGTH && l.excerpt <= a.content
  {
    var head: seq<Line> := if a.content != "" then [ArticleHeading(index, a.id), ArticleExcerpt(Take(a.content, EXCERPT_LENGTH))] else [];
    if a.content != "" {
      HeadCounts(ArticleHeading(index, a.id), ArticleExcerpt(Take(a.content, EXCERPT_LENGTH)));
    }
    var whole := CommentLines(Headed, a.comments);
    var listing := TakeComments(whole, CONTENT_COMMENT_LIMIT);
    var opener := CommentsHeading(|a.comments|);
    CappedListing(Headed, a.comments, CONTENT_COMMENT_LIMIT);
    SectionCounts(head, opener, listing, a.comments != []);
    TakeCommentsCount(whole, CONTENT_COMMENT_LIMIT);
    NoExcerptInListing(listing, whole, a.comments);
    var body: seq<Line> := if a.comments != [] then [opener] + listing else [];
    assert ContentSection(index, a) == head + body + [Separator];
    forall l | l in ContentSection(index, a) && l.ArticleExcerpt?
      ensures |l.excerpt| <= EXCERPT_LENGTH && l.excerpt <= a.content
    {
      assert l !in body;
      assert l in head;
    }
  }

  /** Comment listings never carry excerpt lines. */
  lemma NoExcerptInListing(listing: seq<Line>, whole: seq<Line>, groups: seq<CommentGroup>)
    requires whole == CommentLines(Headed, groups) && listing <= whole
    ensures forall l :: l in listing ==> !l.ArticleExcerpt?
  {
    NoExcerptInCommentLines(groups);
    forall l | l in listing ensures !l.ArticleExcerpt? {
      var j :| 0 <= j < |listing| && listing[j] == l;
      assert whole[j] in whole;
    }
  }

  lemma {:induction false} NoExcerptInCommentLines(groups: seq<CommentGroup>)
    ensures forall l :: l in CommentLines(Headed, groups) ==> l.GroupHeading? || l.Comment?
  {
    if groups != [] {
      var last := groups[|groups| - 1];
      NoExcerptInCommentLines(groups[..|groups| - 1]);
      NoExcerptInReplyLines(last.parentComment, Take(last.items, ITEMS_PER_GROUP));
    }
  }

  lemma {:induction false} NoExcerptInReplyLines(parent: string, items: seq<CommentItem>)
    ensures forall l :: l in ReplyLines(Headed, parent, items) ==> l.Comment?
  {
    if items != [] {
      NoExcerptInReplyLines(parent, items[..|items| - 1]);
    }
  }

  /** Only the first articles matter: two records that agree on their
      first n articles have the same first n sections. */
  lemma {:induction false} TextSectionsAgree(xs: seq<Article>, ys: seq<Article>, n: nat)
    requires n <= |xs| && n <= |ys|
    requires forall i :: 0 <= i < n ==> xs[i] == ys[i]
    ensures TextSections(xs, n) == TextSections(ys, n)
  {
    if n > 0 {
      TextSectionsAgree(xs, ys, n - 1);
      assert xs[n - 1] == ys[n - 1];
    }
  }

  /** The text summary of a record is that of its first two articles. */
  lemma TextSummaryFirstArticles(articles: seq<Article>)
    ensures TextSummary(articles) == TextSummary(articles[..Min(|articles|, TEXT_ARTICLE_LIMIT)])
  {
    var n := Min(|articles|, TEXT_ARTICLE_LIMIT);
    TextSectionsAgree(articles, articles[..n], n);
  }

  lemma {:induction false} ContentSectionsAgree(xs: seq<Article>, ys: seq<Article>, n: nat)
    requires n <= |xs| && n <= |ys|
    requires forall i :: 0 <= i < n ==> xs[i] == ys[i]
    ensures ContentSections(xs, n) == ContentSections(ys, n)
  {
    if n > 0 {
      ContentSectionsAgree(xs, ys, n - 1);
      assert xs[n - 1] == ys[n - 1];
    }
  }

  /** The content summary of a record is that of its first three articles. */
  lemma ContentSummaryFirstArticles(articles: seq<Article>)
    ensures ContentSummary(articles) == ContentSummary(articles[..Min(|articles|, CONTENT_ARTICLE_LIMIT)])
  {
    var n := Min(|articles|, CONTENT_ARTICLE_LIMIT);
    ContentSectionsAgree(articles, articles[..n], n);
  }

  lemma OneMoreSeparator(init: seq<Line>, section: seq<Line>, k: nat)
    requires SeparatorCount(init) == k && SeparatorCount(section) == 1
    ensures SeparatorCount(init + section) == k + 1
  {
    CountsAppend(init, section);
  }

  lemma TextSectionSeparator(index: nat, a: Article)
    ensures SeparatorCount(TextSection(index, a)) == 1
  {
    TextSectionCounts(index, a);
  }

  lemma ContentSectionSeparator(index: nat, a: Article)
    ensures SeparatorCount(ContentSection(index, a)) == 1
  {
    ContentSectionCounts(index, a);
  }

  /** One section per processed article: the text summary closes exactly
      min(|articles|, 2) sections, and the content summary min(|articles|, 3). */
  lemma {:induction false} TextSectionsSeparators(articles: seq<Article>, n: nat)
    requires n <= |articles|
    ensures SeparatorCount(TextSections(articles, n)) == n
  {
    if n > 0 {
      TextSectionsSeparators(articles, n - 1);
      TextSectionSeparator(n, articles[n - 1]);
      OneMoreSeparator(TextSections(articles, n - 1), TextSection(n, articles[n - 1]), n - 1);
    }
  }

  lemma {:induction false} ContentSectionsSeparators(articles: seq<Article>, n: nat)
    requires n <= |articles|
    ensures SeparatorCount(ContentSections(articles, n)) == n
  {
    if n > 0 {
      ContentSectionsSeparators(articles, n - 1);
      ContentSectionSeparator(n, articles[n - 1]);
      OneMoreSeparator(ContentSections(articles, n - 1), ContentSection(n, articles[n - 1]), n - 1);
    }
  }

  lemma SummarySectionCounts(articles: seq<Article>)
    ensures SeparatorCount(TextSummary(articles)) == Min(|articles|, TEXT_ARTICLE_LIMIT)
    ensures SeparatorCount(ContentSummary(articles)) == Min(|articles|, CONTENT_ARTICLE_LIMIT)
  {
    TextSectionsSeparators(articles, Min(|articles|, TEXT_ARTICLE_LIMIT));
    ContentSectionsSeparators(articles, Min(|articles|, CONTENT_ARTICLE_LIMIT));
  }
}
