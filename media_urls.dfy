/** Collection of the image and video URLs of a history record: every URL
    of the kind, in traversal order, kept only when it is a non-empty string
    starting with "http", and only at its first occurrence. */
module MediaUrls {
  import opened History

  /** The acceptance test applied to each URL: non-empty and starting with "http". */
  predicate IsHttpUrl(u: string)
  {
    u != "" && |u| >= 4 && u[..4] == "http"
  }

  /** Every URL of the kind in traversal order, duplicates and junk included. */
  function AllUrls(articles: seq<Article>, kind: MediaKind): seq<string>
  {
    Gather(articles, Urls(kind))
  }

  /** The de-duplicating pass: keep a URL when it passes IsHttpUrl and has
      not been kept before. */
  function UniqueHttp(s: seq<string>): seq<string>
  {
    if s == [] then []
    else
      var kept := UniqueHttp(s[..|s| - 1]);
      var u := s[|s| - 1];
      if IsHttpUrl(u) && u !in kept then kept + [u] else kept
  }

  /** Index of the first occurrence of `x` in `s`. */
  function FirstIndex<T(==)>(s: seq<T>, x: T): (i: nat)
    requires x in s
    ensures i < |s| && s[i] == x
    ensures forall j :: 0 <= j < i ==> s[j] != x
  {
    if s[0] == x then 0 else 1 + FirstIndex(s[1..], x)
  }

  /** The kept list holds no URL twice, and it holds exactly the qualifying
      URLs of the input. */
  lemma {:induction false} UniqueHttpContents(s: seq<string>)
    ensures NoDuplicates(UniqueHttp(s))
    ensures forall u :: u in UniqueHttp(s) <==> u in s && IsHttpUrl(u)
  {
    if s != [] {
      var init := s[..|s| - 1];
      UniqueHttpContents(init);
      assert s == init + [s[|s| - 1]];
    }
  }

  /** De-duplication never lengthens the list. */
  lemma {:induction false} UniqueHttpLength(s: seq<string>)
    ensures |UniqueHttp(s)| <= |s|
  {
    if s != [] {
      UniqueHttpLength(s[..|s| - 1]);
    }
  }

  /** The kept URLs appear in the order of their first occurrence in the input. */
  lemma {:induction false} UniqueHttpFirstSeenOrder(s: seq<string>)
    ensures forall u :: u in UniqueHttp(s) ==> u in s
    ensures forall i, j :: 0 <= i < j < |UniqueHttp(s)| ==>
      FirstIndex(s, UniqueHttp(s)[i]) < FirstIndex(s, UniqueHttp(s)[j])
  {
    UniqueHttpContents(s);
    if s != [] {
      var init := s[..|s| - 1];
      var u := s[|s| - 1];
      var kept := UniqueHttp(init);
      UniqueHttpFirstSeenOrder(init);
      UniqueHttpContents(init);
      assert s == init + [u];
      forall v | v in init
        ensures FirstIndex(s, v) == FirstIndex(init, v)
      {
        var p := FirstIndex(init, v);
        var q := FirstIndex(s, v);
        assert forall j :: 0 <= j < |init| ==> s[j] == init[j];
      }
      if IsHttpUrl(u) && u !in kept {
        assert u !in init;
        assert FirstIndex(s, u) == |s| - 1;
        assert UniqueHttp(s) == kept + [u];
      }
    }
  }

  /** Every URL the record yields for the kind, each once, in first-seen
      order, keeping only those starting with "http". */
  method CollectUrls(articles: seq<Article>, kind: MediaKind) returns (urls: seq<string>)
    ensures urls == UniqueHttp(AllUrls(articles, kind))
    ensures NoDuplicates(urls)
    ensures forall u :: u in urls <==> u in AllUrls(articles, kind) && IsHttpUrl(u)
  {
    // First pass: every URL of the kind, article URLs before the article's
    // reply URLs, groups and replies in order.
    var all: seq<string> := [];
    var i := 0;
    while i < |articles|
      invariant 0 <= i <= |articles|
      invariant all == AllUrls(articles[..i], kind)
    {
      var article := articles[i];
      all := all + ArticleMedia(article, kind);
      ghost var beforeGroups := all;
      var groups := article.comments;
      var g := 0;
      while g < |groups|
        invariant 0 <= g <= |groups|
        invariant all == beforeGroups + GroupsGather(groups[..g], Urls(kind))
      {
        var items := groups[g].items;
        ghost var beforeItems := all;
        var k := 0;
        while k < |items|
          invariant 0 <= k <= |items|
          invariant all == beforeItems + ItemsGather(items[..k], Urls(kind))
        {
          ItemsGatherStep(items, k, Urls(kind));
          AppendAssoc(beforeItems, ItemsGather(items[..k], Urls(kind)), ItemMedia(items[k], kind));
          all := all + ItemMedia(items[k], kind);
          k := k + 1;
        }
        assert items[..k] == items;
        GroupsGatherStep(groups, g, Urls(kind));
        AppendAssoc(beforeGroups, GroupsGather(groups[..g], Urls(kind)), ItemsGather(items, Urls(kind)));
        g := g + 1;
      }
      assert groups[..g] == groups;
      GatherStep(articles, i, Urls(kind));
      i := i + 1;
    }
    assert articles[..i] == articles;

    // Second pass: keep each qualifying URL at its first occurrence.
    urls := [];
    var seen: set<string> := {};
    var j := 0;
    while j < |all|
      invariant 0 <= j <= |all|
      invariant urls == UniqueHttp(all[..j])
      invariant forall u :: u in seen <==> u in urls
    {
      var url := all[j];
      if IsHttpUrl(url) && url !in seen {
        urls := urls + [url];
        seen := seen + {url};
      }
      assert all[..j + 1][..j] == all[..j];
      j := j + 1;
    }
    assert all[..j] == all;
    UniqueHttpContents(all);
  }

  /** The distinct image URLs of the record, in first-seen order. */
  method CollectImageUrls(articles: seq<Article>) returns (urls: seq<string>)
    ensures urls == UniqueHttp(AllUrls(articles, Image))
    ensures NoDuplicates(urls)
    ensures forall u :: u in urls <==> u in AllUrls(articles, Image) && IsHttpUrl(u)
  {
    urls := CollectUrls(articles, Image);
  }

  /** The distinct video URLs of the record, in first-seen order. */
  method CollectVideoUrls(articles: seq<Article>) returns (urls: seq<string>)
    ensures urls == UniqueHttp(AllUrls(articles, Video))
    ensures NoDuplicates(urls)
    ensures forall u :: u in urls <==> u in AllUrls(articles, Video) && IsHttpUrl(u)
  {
    urls := CollectUrls(articles, Video);
  }
}
