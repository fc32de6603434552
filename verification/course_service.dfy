/**
 * The course recommender of the backend: an interest (a comma-separated
 * string or a list) is normalised into keywords, and each keyword yields the
 * hard-coded NLP course, a list of search hits, or a placeholder when no
 * search client exists. The video search itself is a function parameter.
 */
module Courses {
  import opened Common
  import opened Text

  /**
   * An element of a keyword list: a string, or any other value, of which
   * only the truthiness matters (a falsy one is skipped, a truthy one has no
   * upper() that returns a string and raises).
   */
  datatype Item = Word(w: string) | NonString(truthy: bool)

  /** What get_recommendations may be called with. */
  datatype Interest = Str(s: string) | Lst(items: seq<Item>) | Other

  /** One search hit as the search API returns it. */
  datatype Hit = Hit(title: string, videoId: string, thumbnail: string)

  /**
   * A search response: None when the request raises, otherwise its items;
   * an item is None when it lacks a field the loop reads (a KeyError).
   */
  type Response = Option<seq<Option<Hit>>>

  /** One recommended resource; placeholders carry no thumbnail and no description. */
  datatype Resource = Resource(
    kind: string, source: string, title: string, url: string,
    thumbnail: Option<string>, description: Option<string>)

  const MaxResults: nat := 9

  const Sunny := Resource(
    "featured", "Sunny Course", "Sunny 老師的 NLP 實戰班 (官方推薦)",
    "https://course.sunny-nlp.com", Some("https://fakeimg.pl/320x180/?text=SunnyNLP"),
    Some("針對初學者設計的最佳 NLP 入門，從零開始學自然語言處理。"))

  const WatchPrefix := "https://www.youtube.com/watch?v="

  /** The query string sent for a keyword. */
  function Query(word: string): string { word + " tutorial" }

  /** The featured rule: "NLP" in the upper-cased keyword, or the Chinese term for NLP. */
  predicate IsNlp(word: string) {
    Contains(Upper(word), "NLP") || Contains(word, "自然語言")
  }

  function Placeholder(word: string): (r: Resource)
    ensures r.url == "#" && r.kind == "text" && r.source == "System"
    ensures Contains(r.title, word)
  {
    var title := "請設定 API Key 以搜尋 " + word;
    ContainsMiddle("請設定 API Key 以搜尋 ", word, []);
    assert title == "請設定 API Key 以搜尋 " + word + [];
    Resource("text", "System", title, "#", None, None)
  }

  function Video(word: string, h: Hit): (r: Resource)
    ensures r.kind == "video" && r.source == "YouTube" && r.title == h.title
    ensures StartsWith(r.url, WatchPrefix) && r.url[|WatchPrefix|..] == h.videoId
  {
    Resource("video", "YouTube", h.title, WatchPrefix + h.videoId,
      Some(h.thumbnail), Some("關於 " + word + " 的熱門教學影片"))
  }

  /** The items appended before the first malformed hit raises. */
  function Videos(word: string, items: seq<Option<Hit>>): (r: seq<Resource>)
    ensures |r| <= |items|
    ensures forall i :: 0 <= i < |r| ==> items[i].Some? && r[i] == Video(word, items[i].value)
    ensures |r| < |items| ==> items[|r|].None?
  {
    if items == [] || items[0].None? then []
    else [Video(word, items[0].value)] + Videos(word, items[1..])
  }

  /** Keyword normalisation: a string is split on ',' and each piece stripped; a list is used as is. */
  function Keywords(input: Interest): (r: Option<seq<Item>>)
    ensures input.Other? <==> r.None?
    ensures input.Lst? ==> r == Some(input.items)
    ensures input.Str? ==> |r.value| == |Split(input.s, ',')| == Count(input.s, ',') + 1
    ensures input.Str? ==> forall i :: 0 <= i < |r.value| ==> r.value[i] == Word(PyStrip(Split(input.s, ',')[i]))
  {
    match input
    case Str(s) =>
      SplitCount(s, ',');
      var parts := Split(s, ',');
      Some(seq(|parts|, i requires 0 <= i < |parts| => Word(PyStrip(parts[i]))))
    case Lst(items) => Some(items)
    case Other => None
  }

  /** Whether a keyword list holds a truthy non-string, which raises at `word.upper()` outside the try. */
  predicate Raises(items: seq<Item>) {
    exists i :: 0 <= i < |items| && items[i] == NonString(true)
  }

  /** The keywords as strings; a falsy non-string is skipped just as "" is, so it stands as "". */
  function WordsOf(items: seq<Item>): (r: seq<string>)
    ensures |r| == |items|
    ensures forall i :: 0 <= i < |items| ==> r[i] == (if items[i].Word? then items[i].w else "")
  {
    if items == [] then [] else [if items[0].Word? then items[0].w else ""] + WordsOf(items[1..])
  }

  /** What one keyword adds to the results. */
  function Contribution(hasClient: bool, search: string -> Response, word: string): seq<Resource> {
    if word == "" then []
    else if IsNlp(word) then [Sunny]
    else if hasClient then
      match search(Query(word))
      case None => []
      case Some(items) => Videos(word, items)
    else [Placeholder(word)]
  }

  /** The concatenation of what `f` gives for each element, in order. */
  function ConcatMap<A, B>(xs: seq<A>, f: A -> seq<B>): seq<B> {
    if xs == [] then [] else f(xs[0]) + ConcatMap(xs[1..], f)
  }

  lemma {:induction false} ConcatMapAppend<A, B>(a: seq<A>, b: seq<A>, f: A -> seq<B>)
    ensures ConcatMap(a + b, f) == ConcatMap(a, f) + ConcatMap(b, f)
  {
    if a == [] {
      assert a + b == b;
    } else {
      assert (a + b)[0] == a[0] && (a + b)[1..] == a[1..] + b;
      ConcatMapAppend(a[1..], b, f);
    }
  }

  function Contributor(hasClient: bool, search: string -> Response): string -> seq<Resource> {
    word => Contribution(hasClient, search, word)
  }

  /** The results of a keyword list: each keyword's contribution, in keyword order. */
  function Collect(hasClient: bool, search: string -> Response, words: seq<string>): seq<Resource> {
    ConcatMap(words, Contributor(hasClient, search))
  }

  /** The whole of get_recommendations: None when the call raises. */
  function Recommend(hasClient: bool, search: string -> Response, input: Interest): Option<seq<Resource>> {
    match Keywords(input)
    case None => Some([])
    case Some(items) => if Raises(items) then None else Some(Collect(hasClient, search, WordsOf(items)))
  }

  class CourseService {
    /** Whether a search client was built; the API key itself is read from the environment. */
    var hasClient: bool

    /** A client exists only when the key is non-empty and building the client did not raise. */
    constructor(apiKey: Option<string>, buildSucceeds: bool)
      ensures hasClient <==> apiKey.Some? && apiKey.value != "" && buildSucceeds
    {
      hasClient := apiKey.Some? && apiKey.value != "" && buildSucceeds;
    }

    /** get_recommendations, with the video search passed in; None when it raises. */
    method GetRecommendations(input: Interest, search: string -> Response) returns (outcome: Option<seq<Resource>>)
      ensures outcome == Recommend(hasClient, search, input)
    {
      var keywords: seq<Item>;
      match input {
        case Str(s) =>
          var parts := Split(s, ',');
          keywords := seq(|parts|, i requires 0 <= i < |parts| => Word(PyStrip(parts[i])));
        case Lst(items) =>
          keywords := items;
        case Other =>
          return Some([]);
      }
      assert Keywords(input) == Some(keywords);
      outcome := CollectKeywords(keywords, search);
    }

    /** The keyword loop: None as soon as a truthy non-string is reached, else every contribution in order. */
    method CollectKeywords(keywords: seq<Item>, search: string -> Response) returns (outcome: Option<seq<Resource>>)
      ensures outcome == if Raises(keywords) then None else Some(Collect(hasClient, search, WordsOf(keywords)))
    {
      var results := [];
      for i := 0 to |keywords|
        invariant results == Collect(hasClient, search, WordsOf(keywords[..i]))
        invariant !Raises(keywords[..i])
      {
        if keywords[i] == NonString(true) {
          assert Raises(keywords) by { assert keywords[i] == NonString(true); }
          return None;
        }
        KeywordStep(hasClient, search, keywords, i);
        match keywords[i] {
          case NonString(_) =>
          case Word(word) =>
            results := AddKeyword(results, word, search);
        }
      }
      assert keywords[..|keywords|] == keywords;
      outcome := Some(results);
    }

    /** The body of the keyword loop for one string keyword. */
    method AddKeyword(results: seq<Resource>, word: string, search: string -> Response) returns (r: seq<Resource>)
      ensures r == results + Contribution(hasClient, search, word)
    {
      r := results;
      if word == "" {
        return;
      }
      if Contains(Upper(word), "NLP") || Contains(word, "自然語言") {
        r := r + [Sunny];
        return;
      }
      if hasClient {
        var response := search(Query(word));
        if response.Some? {
          r := AppendVideos(r, word, response.value);
        }
      } else {
        r := r + [Placeholder(word)];
      }
    }
  }

  /** The inner loop: append a video per hit until a malformed hit raises. */
  method AppendVideos(base: seq<Resource>, word: string, items: seq<Option<Hit>>) returns (results: seq<Resource>)
    ensures results == base + Videos(word, items)
  {
    results := base;
    var j := 0;
    while j < |items|
      invariant 0 <= j <= |items|
      invariant forall k :: 0 <= k < j ==> items[k].Some?
      invariant results == base + Videos(word, items[..j])
    {
      if items[j].None? {
        break;
      }
      VideosSnoc(word, items[..j], items[j].value);
      assert items[..j + 1] == items[..j] + [items[j]];
      results := results + [Video(word, items[j].value)];
      j := j + 1;
    }
    VideosPrefix(word, items, j);
  }

  /** Extending well-formed hits by one well-formed hit adds its video at the end. */
  lemma {:induction false} VideosSnoc(word: string, items: seq<Option<Hit>>, h: Hit)
    requires forall k :: 0 <= k < |items| ==> items[k].Some?
    ensures Videos(word, items + [Some(h)]) == Videos(word, items) + [Video(word, h)]
  {
    if items != [] {
      assert (items + [Some(h)])[1..] == items[1..] + [Some(h)];
      VideosSnoc(word, items[1..], h);
    }
  }

  /** The loop stops at the first malformed hit, or at the end: either way it has all the videos. */
  lemma VideosPrefix(word: string, items: seq<Option<Hit>>, j: nat)
    requires j <= |items|
    requires forall k :: 0 <= k < j ==> items[k].Some?
    requires j == |items| || items[j].None?
    ensures Videos(word, items[..j]) == Videos(word, items)
  {
    var a := Videos(word, items[..j]);
    var b := Videos(word, items);
    assert |a| == j;
    assert |b| == j;
    forall i | 0 <= i < j ensures a[i] == b[i] {
      assert items[..j][i] == items[i];
    }
  }

  /** Results are grouped by keyword: the results of a concatenation are the concatenation of the results. */
  lemma CollectAppend(hasClient: bool, search: string -> Response, a: seq<string>, b: seq<string>)
    ensures Collect(hasClient, search, a + b) == Collect(hasClient, search, a) + Collect(hasClient, search, b)
  {
    ConcatMapAppend(a, b, Contributor(hasClient, search));
  }

  /** A single keyword's results are its contribution. */
  lemma CollectOne(hasClient: bool, search: string -> Response, word: string)
    ensures Collect(hasClient, search, [word]) == Contribution(hasClient, search, word)
  {
    var one := [word];
    assert one[0] == word && one[1..] == [];
    assert ConcatMap(one, Contributor(hasClient, search)) == Contributor(hasClient, search)(word) + ConcatMap([], Contributor(hasClient, search));
  }

  /** One more keyword that does not raise adds its contribution, or nothing for a falsy non-string. */
  lemma KeywordStep(hasClient: bool, search: string -> Response, keywords: seq<Item>, i: nat)
    requires i < |keywords| && keywords[i] != NonString(true)
    ensures Raises(keywords[..i + 1]) == Raises(keywords[..i])
    ensures Collect(hasClient, search, WordsOf(keywords[..i + 1]))
      == Collect(hasClient, search, WordsOf(keywords[..i])) + (if keywords[i].Word? then Contribution(hasClient, search, keywords[i].w) else [])
  {
    var last := [keywords[i]];
    assert keywords[..i + 1] == keywords[..i] + last;
    RaisesAppend(keywords[..i], last);
    assert !Raises(last);
    WordsOfAppend(keywords[..i], last);
    var w := if keywords[i].Word? then keywords[i].w else "";
    assert WordsOf(last) == [w] by { assert last[1..] == []; }
    CollectAppend(hasClient, search, WordsOf(keywords[..i]), [w]);
    CollectOne(hasClient, search, w);
  }

  /** Input that is neither a string nor a list gives no results. */
  lemma OtherGivesNothing(hasClient: bool, search: string -> Response)
    ensures Recommend(hasClient, search, Other) == Some([])
  {
  }

  /** A truthy non-string anywhere in a keyword list makes the whole call raise, discarding what was gathered. */
  lemma NonStringAborts(hasClient: bool, search: string -> Response, a: seq<Item>, b: seq<Item>)
    ensures Recommend(hasClient, search, Lst(a + [NonString(true)] + b)) == None
  {
    var items := a + [NonString(true)] + b;
    assert items[|a|] == NonString(true);
  }

  lemma RaisesAppend(x: seq<Item>, y: seq<Item>)
    ensures Raises(x + y) <==> Raises(x) || Raises(y)
  {
    if Raises(x) {
      var i :| 0 <= i < |x| && x[i] == NonString(true);
      assert (x + y)[i] == x[i];
    }
    if Raises(y) {
      var i :| 0 <= i < |y| && y[i] == NonString(true);
      assert (x + y)[|x| + i] == y[i];
    }
    if Raises(x + y) {
      var i :| 0 <= i < |x + y| && (x + y)[i] == NonString(true);
      if i < |x| { assert x[i] == NonString(true); } else { assert y[i - |x|] == NonString(true); }
    }
  }

  lemma {:induction false} WordsOfAppend(x: seq<Item>, y: seq<Item>)
    ensures WordsOf(x + y) == WordsOf(x) + WordsOf(y)
  {
    if x == [] {
      assert x + y == y;
    } else {
      assert (x + y)[1..] == x[1..] + y;
      WordsOfAppend(x[1..], y);
    }
  }

  /** A falsy non-string in a keyword list is skipped: the results are those of the list without it. */
  lemma FalsyItemSkipped(hasClient: bool, search: string -> Response, a: seq<Item>, b: seq<Item>)
    ensures Recommend(hasClient, search, Lst(a + [NonString(false)] + b)) == Recommend(hasClient, search, Lst(a + b))
  {
    FalsyItemWords(a, b);
    EmptyKeywordSkipped(hasClient, search, WordsOf(a), WordsOf(b));
  }

  /** A falsy non-string neither raises nor yields a word other than "". */
  lemma FalsyItemWords(a: seq<Item>, b: seq<Item>)
    ensures Raises(a + [NonString(false)] + b) == Raises(a + b)
    ensures WordsOf(a + [NonString(false)] + b) == WordsOf(a) + [""] + WordsOf(b)
    ensures WordsOf(a + b) == WordsOf(a) + WordsOf(b)
  {
    var skipped := [NonString(false)];
    RaisesAppend(a + skipped, b);
    RaisesAppend(a, skipped);
    RaisesAppend(a, b);
    assert !Raises(skipped);
    assert WordsOf(skipped) == [""] by { assert skipped[1..] == []; }
    WordsOfAppend(a + skipped, b);
    WordsOfAppend(a, skipped);
    WordsOfAppend(a, b);
  }

  /** A list of strings gives the collection over those strings. */
  lemma StringListCollects(hasClient: bool, search: string -> Response, words: seq<string>)
    ensures Recommend(hasClient, search, Lst(seq(|words|, i requires 0 <= i < |words| => Word(words[i]))))
      == Some(Collect(hasClient, search, words))
  {
    var items := seq(|words|, i requires 0 <= i < |words| => Word(words[i]));
    assert WordsOf(items) == words;
  }

  /** An empty keyword anywhere in a keyword list changes nothing. */
  lemma EmptyKeywordSkipped(hasClient: bool, search: string -> Response, a: seq<string>, b: seq<string>)
    ensures Collect(hasClient, search, a + [""] + b) == Collect(hasClient, search, a + b)
  {
    var f := Contributor(hasClient, search);
    var ca, cb := ConcatMap(a, f), ConcatMap(b, f);
    assert ConcatMap([""], f) == [] by {
      CollectOne(hasClient, search, "");
    }
    ConcatMapAppend(a, [""], f);
    assert ConcatMap(a + [""], f) == ca;
    ConcatMapAppend(a + [""], b, f);
    assert ConcatMap(a + [""] + b, f) == ca + cb;
    ConcatMapAppend(a, b, f);
  }

  /** An NLP keyword yields exactly the featured course, whatever the client and the search would do. */
  lemma NlpIsFeatured(h1: bool, s1: string -> Response, h2: bool, s2: string -> Response, word: string)
    requires word != "" && IsNlp(word)
    ensures Contribution(h1, s1, word) == [Sunny]
    ensures Contribution(h1, s1, word) == Contribution(h2, s2, word)
  {
  }

  /** The rule sees "nlp" in any letter case. */
  lemma LowerCaseNlp()
    ensures IsNlp("nlp")
  {
    assert Upper("nlp") == "NLP";
    assert OccursAt(Upper("nlp"), "NLP", 0);
  }

  /** Without a client, each non-empty keyword outside the NLP rule yields one placeholder linking to "#". */
  lemma NoClientPlaceholder(search: string -> Response, word: string)
    requires word != "" && !IsNlp(word)
    ensures var c := Contribution(false, search, word);
      |c| == 1 && c[0].url == "#" && Contains(c[0].title, word)
  {
  }

  /** Number of non-empty keywords. */
  function NonEmpty(words: seq<string>): nat {
    if words == [] then 0 else (if words[0] != "" then 1 else 0) + NonEmpty(words[1..])
  }

  /** Without a client every non-empty keyword contributes exactly one resource. */
  lemma {:induction false} NoClientCount(search: string -> Response, words: seq<string>)
    ensures |Collect(false, search, words)| == NonEmpty(words)
  {
    if words != [] {
      NoClientCount(search, words[1..]);
    }
  }

  /** With a client, a keyword adds at most as many items as the search returned, so at most 9 when the API honours maxResults. */
  lemma SearchBound(search: string -> Response, word: string)
    requires word != "" && !IsNlp(word)
    requires search(Query(word)).Some? ==> |search(Query(word)).value| <= MaxResults
    ensures |Contribution(true, search, word)| <= MaxResults
    ensures search(Query(word)).None? ==> Contribution(true, search, word) == []
  {
  }

  /** Every result is the featured course, a video or a placeholder. */
  lemma {:induction false} ResultKinds(hasClient: bool, search: string -> Response, words: seq<string>)
    ensures forall r :: r in Collect(hasClient, search, words) ==>
      r == Sunny || (r.kind == "video" && StartsWith(r.url, WatchPrefix)) || (r.kind == "text" && r.url == "#")
  {
    if words != [] {
      ResultKinds(hasClient, search, words[1..]);
    }
  }
}
