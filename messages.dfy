/** The chat request sent for one user: the model name, chosen from the
    analysis mode, and a single user message whose content is the text
    prompt alone (text-only mode) or the text prompt followed by image and
    video parts (multimodal mode). */
module Messages {
  import opened History
  import opened MediaUrls
  import opened Summaries

  const QWEN_MAX: string := "qwen-max"
  const QWEN_VL_MAX: string := "qwen-vl-max"
  const USER_ROLE: string := "user"
  const IMAGE_PART_LIMIT: nat := 3
  const VIDEO_PART_LIMIT: nat := 2

  /** What the prompt template is filled with: the user id, the text
      summary, and the numbers of distinct image and video URLs.  `withMedia`
      selects the multimodal wording of the template over the text-only one. */
  datatype Prompt = Prompt(uid: string, summary: seq<Line>, imageCount: nat, videoCount: nat, withMedia: bool)

  datatype Part = TextPart(prompt: Prompt) | ImagePart(url: string) | VideoPart(url: string)

  /** A message's content: a plain prompt, or a list of parts. */
  datatype Content = PlainText(prompt: Prompt) | Parts(parts: seq<Part>)

  datatype Message = Message(role: string, content: Content)

  /** The model actually used: the multimodal mode upgrades the default
      text model to the vision model, the text-only mode downgrades the
      vision model to the text model, and any other name is kept. */
  function SelectModel(useMultimodal: bool, modelName: string): (r: string)
  {
    if useMultimodal && modelName == QWEN_MAX then QWEN_VL_MAX
    else if !useMultimodal && modelName == QWEN_VL_MAX then QWEN_MAX
    else modelName
  }

  /** The two known models always match the mode; other names pass
      through; and choosing twice changes nothing. */
  lemma SelectModelProperties(useMultimodal: bool, modelName: string)
    ensures modelName == QWEN_MAX || modelName == QWEN_VL_MAX ==>
      SelectModel(useMultimodal, modelName) == (if useMultimodal then QWEN_VL_MAX else QWEN_MAX)
    ensures modelName != QWEN_MAX && modelName != QWEN_VL_MAX ==> SelectModel(useMultimodal, modelName) == modelName
    ensures SelectModel(useMultimodal, SelectModel(useMultimodal, modelName)) == SelectModel(useMultimodal, modelName)
  {
  }

  /** The media parts of one kind: one per URL starting with "http". */
  function MediaParts(urls: seq<string>, kind: MediaKind): seq<Part>
  {
    if urls == [] then []
    else
      var url := urls[|urls| - 1];
      MediaParts(urls[..|urls| - 1], kind) +
        (if IsHttpUrl(url) then [if kind == Image then ImagePart(url) else VideoPart(url)] else [])
  }

  lemma MediaPartsStep(urls: seq<string>, k: nat, kind: MediaKind)
    requires k < |urls|
    ensures MediaParts(urls[..k + 1], kind) == MediaParts(urls[..k], kind) +
      (if IsHttpUrl(urls[k]) then [if kind == Image then ImagePart(urls[k]) else VideoPart(urls[k])] else [])
  {
    assert urls[..k + 1][..k] == urls[..k];
  }

  /** One part per URL, in order. */
  function PartsFor(urls: seq<string>, kind: MediaKind): (r: seq<Part>)
    ensures |r| == |urls|
  {
    seq(|urls|, j requires 0 <= j < |urls| => if kind == Image then ImagePart(urls[j]) else VideoPart(urls[j]))
  }

  /** URLs that all pass the filter become one part each, in order. */
  lemma {:induction false} MediaPartsOfHttpUrls(urls: seq<string>, kind: MediaKind)
    requires forall u :: u in urls ==> IsHttpUrl(u)
    ensures MediaParts(urls, kind) == PartsFor(urls, kind)
  {
    if urls != [] {
      var init := urls[..|urls| - 1];
      assert forall u :: u in init ==> u in urls;
      MediaPartsOfHttpUrls(init, kind);
      assert PartsFor(urls, kind) == PartsFor(init, kind) + PartsFor([urls[|urls| - 1]], kind);
    }
  }

  function MultimodalPrompt(uid: string, articles: seq<Article>): Prompt
  {
    Prompt(uid, TextSummary(articles), |UniqueHttp(AllUrls(articles, Image))|,
           |UniqueHttp(AllUrls(articles, Video))|, true)
  }

  function TextOnlyPrompt(uid: string, articles: seq<Article>): Prompt
  {
    Prompt(uid, TextSummary(articles), |UniqueHttp(AllUrls(articles, Image))|,
           |UniqueHttp(AllUrls(articles, Video))|, false)
  }

  /** The parts of the multimodal message: the prompt, then the parts for
      the first three distinct image URLs, then those for the first two
      distinct video URLs. */
  function MultimodalParts(uid: string, articles: seq<Article>): seq<Part>
  {
    [TextPart(MultimodalPrompt(uid, articles))]
      + MediaParts(Take(UniqueHttp(AllUrls(articles, Image)), IMAGE_PART_LIMIT), Image)
      + MediaParts(Take(UniqueHttp(AllUrls(articles, Video)), VIDEO_PART_LIMIT), Video)
  }

  /** The layout of the multimodal parts: the text part first, then one
      image part for each of the first min(3, distinct images) distinct
      image URLs in first-seen order, then one video part for each of the
      first min(2, distinct videos) distinct video URLs; the "http" filter
      of the loops drops nothing, since every collected URL passes it. */
  lemma MultimodalPartsLayout(uid: string, articles: seq<Article>)
    ensures var images := UniqueHttp(AllUrls(articles, Image));
      var videos := UniqueHttp(AllUrls(articles, Video));
      MultimodalParts(uid, articles) ==
        [TextPart(MultimodalPrompt(uid, articles))]
        + PartsFor(Take(images, IMAGE_PART_LIMIT), Image)
        + PartsFor(Take(videos, VIDEO_PART_LIMIT), Video) &&
      |MultimodalParts(uid, articles)| == 1 + Min(|images|, IMAGE_PART_LIMIT) + Min(|videos|, VIDEO_PART_LIMIT) &&
      (forall u :: u in Take(images, IMAGE_PART_LIMIT) + Take(videos, VIDEO_PART_LIMIT) ==> IsHttpUrl(u))
  {
    var images := UniqueHttp(AllUrls(articles, Image));
    var videos := UniqueHttp(AllUrls(articles, Video));
    var shownImages := Take(images, IMAGE_PART_LIMIT);
    var shownVideos := Take(videos, VIDEO_PART_LIMIT);
    UniqueHttpContents(AllUrls(articles, Image));
    UniqueHttpContents(AllUrls(articles, Video));
    assert forall u :: u in shownImages ==> u in images;
    assert forall u :: u in shownVideos ==> u in videos;
    MediaPartsOfHttpUrls(shownImages, Image);
    MediaPartsOfHttpUrls(shownVideos, Video);
  }

  /** The multimodal request body: the text summary and the distinct URLs
      are computed first; the prompt goes first, then an image part per
      shown image URL and a video part per shown video URL. */
  method BuildMultimodalMessages(uid: string, articles: seq<Article>) returns (messages: seq<Message>)
    ensures messages == [Message(USER_ROLE, Parts(MultimodalParts(uid, articles)))]
  {
    var textSummary := BuildTextContentSummary(articles);
    var imageUrls := CollectImageUrls(articles);
    var videoUrls := CollectVideoUrls(articles);
    var prompt := Prompt(uid, textSummary, |imageUrls|, |videoUrls|, true);
    var parts := [TextPart(prompt)];

    var shownImages := Take(imageUrls, IMAGE_PART_LIMIT);
    ghost var beforeImages := parts;
    var k := 0;
    while k < |shownImages|
      invariant 0 <= k <= |shownImages|
      invariant parts == beforeImages + MediaParts(shownImages[..k], Image)
    {
      var url := shownImages[k];
      MediaPartsStep(shownImages, k, Image);
      AppendAssoc(beforeImages, MediaParts(shownImages[..k], Image),
                  if IsHttpUrl(url) then [ImagePart(url)] else []);
      if url != "" && |url| >= 4 && url[..4] == "http" {
        parts := parts + [ImagePart(url)];
      } else {
        AppendEmpty(parts);
      }
      k := k + 1;
    }
    assert shownImages[..k] == shownImages;

    var shownVideos := Take(videoUrls, VIDEO_PART_LIMIT);
    ghost var beforeVideos := parts;
    k := 0;
    while k < |shownVideos|
      invariant 0 <= k <= |shownVideos|
      invariant parts == beforeVideos + MediaParts(shownVideos[..k], Video)
    {
      var url := shownVideos[k];
      MediaPartsStep(shownVideos, k, Video);
      AppendAssoc(beforeVideos, MediaParts(shownVideos[..k], Video),
                  if IsHttpUrl(url) then [VideoPart(url)] else []);
      if url != "" && |url| >= 4 && url[..4] == "http" {
        parts := parts + [VideoPart(url)];
      } else {
        AppendEmpty(parts);
      }
      k := k + 1;
    }
    assert shownVideos[..k] == shownVideos;

    messages := [Message(USER_ROLE, Parts(parts))];
  }

  /** The text-only request body: one user message holding the prompt. */
  method BuildTextOnlyMessages(uid: string, articles: seq<Article>) returns (messages: seq<Message>)
    ensures messages == [Message(USER_ROLE, PlainText(TextOnlyPrompt(uid, articles)))]
  {
    var textSummary := BuildTextContentSummary(articles);
    var imageUrls := CollectImageUrls(articles);
    var videoUrls := CollectVideoUrls(articles);
    var prompt := Prompt(uid, textSummary, |imageUrls|, |videoUrls|, false);
    messages := [Message(USER_ROLE, PlainText(prompt))];
  }

  /** The two modes fill the prompt with the same summary and counts; only
      the wording and the media parts differ. */
  lemma PromptsAgree(uid: string, articles: seq<Article>)
    ensures TextOnlyPrompt(uid, articles) == MultimodalPrompt(uid, articles).(withMedia := false)
    ensures MultimodalPrompt(uid, articles).imageCount <= |AllUrls(articles, Image)|
    ensures MultimodalPrompt(uid, articles).videoCount <= |AllUrls(articles, Video)|
  {
    UniqueHttpLength(AllUrls(articles, Image));
    UniqueHttpLength(AllUrls(articles, Video));
  }

  datatype Request = Request(model: string, messages: seq<Message>)

  /** What profile generation does before calling the service: a record
      without articles is answered at once with an error naming its uid;
      otherwise the model is chosen and the messages built for the mode. */
  datatype Prepared = NotEnoughHistory(uid: string) | Ready(request: Request)

  method PrepareRequest(user: UserHistory, modelName: string, useMultimodal: bool) returns (p: Prepared)
    ensures p.NotEnoughHistory? <==> user.articles == []
    ensures p.NotEnoughHistory? ==> p.uid == user.uid
    ensures p.Ready? ==> p.request.model == SelectModel(useMultimodal, modelName)
    ensures p.Ready? && useMultimodal ==>
      p.request.messages == [Message(USER_ROLE, Parts(MultimodalParts(user.uid, user.articles)))]
    ensures p.Ready? && !useMultimodal ==>
      p.request.messages == [Message(USER_ROLE, PlainText(TextOnlyPrompt(user.uid, user.articles)))]
  {
    var model := modelName;
    if useMultimodal && model == QWEN_MAX {
      model := QWEN_VL_MAX;
    } else if !useMultimodal && model == QWEN_VL_MAX {
      model := QWEN_MAX;
    }
    if user.articles == [] {
      return NotEnoughHistory(user.uid);
    }
    var messages;
    if useMultimodal {
      messages := BuildMultimodalMessages(user.uid, user.articles);
    } else {
      messages := BuildTextOnlyMessages(user.uid, user.articles);
    }
    p := Ready(Request(model, messages));
  }
}
