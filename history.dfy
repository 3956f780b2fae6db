/** The nested per-user history record that profile generation consumes, and
    the in-order traversal of it that every consumer performs.

    A record is a list of articles; an article carries its own text and media
    and a list of comment groups; a group carries the parent comment's text
    and the user's replies under it.  Keys that are absent from the record read
    as "" or [] (the consumers look every key up with a default), so the
    datatypes below simply hold those defaults. */
module History {

  /** One reply of the user: keys `content`, `images`, `videos`. */
  datatype CommentItem = CommentItem(content: string, images: seq<string>, videos: seq<string>)

  /** Replies sharing one parent: keys `parent_comment` ("" for top-level
      comments) and `content`. */
  datatype CommentGroup = CommentGroup(parentComment: string, items: seq<CommentItem>)

  /** Keys `article_id`, `article_content`, `article_images`,
      `article_videos` and `comments`. */
  datatype Article = Article(id: string, content: string, images: seq<string>,
                             videos: seq<string>, comments: seq<CommentGroup>)

  /** Keys `uid` and `articles`. */
  datatype UserHistory = UserHistory(uid: string, articles: seq<Article>)

  datatype MediaKind = Image | Video

  function Min(a: int, b: int): int { if a <= b then a else b }

  /** No element occurs twice. */
  predicate NoDuplicates<T(==)>(s: seq<T>)
  {
    forall i, j :: 0 <= i < j < |s| ==> s[i] != s[j]
  }

  /** Python's `s[:n]` for a non-negative `n`. */
  function Take<T>(s: seq<T>, n: nat): (r: seq<T>)
    ensures |r| == Min(|s|, n)
    ensures r == s[..|r|]
  {
    if |s| <= n then s else s[..n]
  }

  function ArticleMedia(a: Article, kind: MediaKind): seq<string>
  {
    match kind
    case Image => a.images
    case Video => a.videos
  }

  function ItemMedia(it: CommentItem, kind: MediaKind): seq<string>
  {
    match kind
    case Image => it.images
    case Video => it.videos
  }

  /** What a traversal picks up from each article and each reply:
      - Urls: every media URL of that kind;
      - UrlSamples: the first two of an article's URLs, the first one of a reply's;
      - Texts: the non-empty article and reply texts;
      - ContentSamples: the first 100 characters of each non-empty article
        text followed by "...", nothing from replies. */
  datatype Field = Urls(kind: MediaKind) | UrlSamples(sampleKind: MediaKind) | Texts | ContentSamples

  const ELLIPSIS: string := "..."

  function ArticlePart(a: Article, f: Field): seq<string>
  {
    match f
    case Urls(kind) => ArticleMedia(a, kind)
    case UrlSamples(kind) => Take(ArticleMedia(a, kind), 2)
    case Texts => if a.content != "" then [a.content] else []
    case ContentSamples => if a.content != "" then [Take(a.content, 100) + ELLIPSIS] else []
  }

  function ItemPart(it: CommentItem, f: Field): seq<string>
  {
    match f
    case Urls(kind) => ItemMedia(it, kind)
    case UrlSamples(kind) => Take(ItemMedia(it, kind), 1)
    case Texts => if it.content != "" then [it.content] else []
    case ContentSamples => []
  }

  /** The parts of a group's replies, reply by reply. */
  function ItemsGather(items: seq<CommentItem>, f: Field): seq<string>
  {
    if items == [] then []
    else ItemsGather(items[..|items| - 1], f) + ItemPart(items[|items| - 1], f)
  }

  /** The parts of an article's comments, group by group. */
  function GroupsGather(groups: seq<CommentGroup>, f: Field): seq<string>
  {
    if groups == [] then []
    else GroupsGather(groups[..|groups| - 1], f) + ItemsGather(groups[|groups| - 1].items, f)
  }

  /** The parts of a record in traversal order: for each article, its own
      part first, then its groups in order, and within a group its replies
      in order. */
  function Gather(articles: seq<Article>, f: Field): seq<string>
  {
    if articles == [] then []
    else
      var a := articles[|articles| - 1];
      Gather(articles[..|articles| - 1], f) + ArticlePart(a, f) + GroupsGather(a.comments, f)
  }

  // One step of each traversal level, for loops that walk a record front to back.

  lemma ItemsGatherStep(items: seq<CommentItem>, k: nat, f: Field)
    requires k < |items|
    ensures ItemsGather(items[..k + 1], f) == ItemsGather(items[..k], f) + ItemPart(items[k], f)
  {
    assert items[..k + 1][..k] == items[..k];
  }

  lemma GroupsGatherStep(groups: seq<CommentGroup>, g: nat, f: Field)
    requires g < |groups|
    ensures GroupsGather(groups[..g + 1], f) == GroupsGather(groups[..g], f) + ItemsGather(groups[g].items, f)
  {
    assert groups[..g + 1][..g] == groups[..g];
  }

  lemma GatherStep(articles: seq<Article>, i: nat, f: Field)
    requires i < |articles|
    ensures Gather(articles[..i + 1], f) ==
      Gather(articles[..i], f) + ArticlePart(articles[i], f) + GroupsGather(articles[i].comments, f)
  {
    assert articles[..i + 1][..i] == articles[..i];
  }

  lemma AppendAssoc<T>(a: seq<T>, b: seq<T>, c: seq<T>)
    ensures (a + b) + c == a + (b + c)
  {
  }

  lemma AppendEmpty<T>(a: seq<T>)
    ensures a + [] == a && [] + a == a
  {
  }
}
