/**
 * Cleaning of scraped job-posting text and the split of a Taiwanese address
 * into city and district, as the location back-fill script does before it
 * writes rows (the database and CSV traffic around them is not modelled).
 */
module Location {
  import opened Common
  import opened Text

  /** re.sub(r'\s+', ' ', s): every maximal run of whitespace becomes one plain space. */
  function Collapse(s: string): (r: string)
    ensures forall i :: 0 <= i < |r| && IsPySpace(r[i]) ==> r[i] == ' '
    ensures forall i :: 0 <= i < |r| - 1 ==> !(IsPySpace(r[i]) && IsPySpace(r[i + 1]))
    ensures r == [] || s == [] || (IsPySpace(r[0]) <==> IsPySpace(s[0]))
    decreases |s|
  {
    if s == [] then []
    else if IsPySpace(s[0]) then
      TrimStartShape(s, IsPySpace);
      [' '] + Collapse(TrimStart(s, IsPySpace))
    else [s[0]] + Collapse(s[1..])
  }

  /** Index of the first `c` in `s`, or |s| when there is none. */
  function FirstIndex(s: string, c: char): (k: nat)
    ensures k <= |s| && (k < |s| ==> s[k] == c)
    ensures forall i :: 0 <= i < k ==> s[i] != c
  {
    if s == [] then 0 else if s[0] == c then 0 else 1 + FirstIndex(s[1..], c)
  }

  /**
   * re.sub(r'<[^>]+>', '', s): scanning left to right, a '<' followed by at
   * least one character and then the first '>' after it is removed with them.
   */
  function RemoveTags(s: string): (r: string)
    ensures |r| <= |s|
    ensures forall c :: c in r ==> c in s
    ensures '<' !in s ==> r == s
    decreases |s|
  {
    if s == [] then []
    else
      var close := 1 + FirstIndex(s[1..], '>');
      if s[0] == '<' && 2 <= close < |s| then RemoveTags(s[close + 1..])
      else [s[0]] + RemoveTags(s[1..])
  }

  /** clean_text: None stays None; otherwise collapse, strip, drop tags, and map "" to None. */
  function CleanText(text: Option<string>): (r: Option<string>)
    ensures text.None? ==> r.None?
    ensures r != Some("")
  {
    match text
    case None => None
    case Some(t) =>
      var u := RemoveTags(PyStrip(Collapse(t)));
      if u == "" then None else Some(u)
  }

  /** Stripping keeps a contiguous part of the text: its characters and its neighbours. */
  lemma StripSlice(a: string) returns (lo: nat)
    ensures lo + |PyStrip(a)| <= |a| && PyStrip(a) == a[lo..lo + |PyStrip(a)|]
  {
    var b0 := TrimStart(a, IsPySpace);
    TrimStartShape(a, IsPySpace);
    TrimEndShape(b0, IsPySpace);
    lo := |a| - |b0|;
    assert PyStrip(a) == b0[..|PyStrip(a)|];
  }

  /** Every character of the stripped text comes from the text. */
  lemma StripChars(a: string)
    ensures forall c :: c in PyStrip(a) ==> c in a
  {
    var b := PyStrip(a);
    var lo := StripSlice(a);
    forall c | c in b ensures c in a {
      var i :| 0 <= i < |b| && b[i] == c;
      assert a[lo + i] == c;
    }
  }

  /** The only whitespace a cleaned text can hold is the plain space. */
  lemma CleanTextSpaces(text: Option<string>)
    requires CleanText(text).Some?
    ensures forall c :: c in CleanText(text).value && IsPySpace(c) ==> c == ' '
  {
    var a := Collapse(text.value);
    StripChars(a);
    forall c | c in CleanText(text).value && IsPySpace(c) ensures c == ' ' {
      assert c in PyStrip(a);
      var i :| 0 <= i < |a| && a[i] == c;
    }
  }

  /** A '<' can only come out of collapsing and stripping if it went in. */
  lemma StripCollapseNoTag(t: string)
    requires '<' !in t
    ensures '<' !in PyStrip(Collapse(t))
  {
    StripChars(Collapse(t));
    if '<' in Collapse(t) {
      CollapseChars(t, '<');
    }
  }

  /** Stripping cannot put two whitespace characters side by side. */
  lemma StripNoAdjacent(a: string)
    requires forall i :: 0 <= i < |a| - 1 ==> !(IsPySpace(a[i]) && IsPySpace(a[i + 1]))
    ensures var b := PyStrip(a); forall i :: 0 <= i < |b| - 1 ==> !(IsPySpace(b[i]) && IsPySpace(b[i + 1]))
  {
    var b := PyStrip(a);
    var lo := StripSlice(a);
    forall i | 0 <= i < |b| - 1
      ensures !(IsPySpace(b[i]) && IsPySpace(b[i + 1]))
    {
      assert b[i] == a[lo + i] && b[i + 1] == a[lo + i + 1];
    }
  }

  /**
   * A text without '<' comes out stripped, with single spaces between words:
   * no leading or trailing space, no two spaces side by side, and still no '<'.
   */
  lemma CleanTextTagFree(t: string)
    requires '<' !in t
    requires CleanText(Some(t)).Some?
    ensures var r := CleanText(Some(t)).value;
      && '<' !in r
      && r[0] != ' ' && r[|r| - 1] != ' '
      && forall i :: 0 <= i < |r| - 1 ==> !(r[i] == ' ' && r[i + 1] == ' ')
  {
    var a := Collapse(t);
    var b := PyStrip(a);
    StripCollapseNoTag(t);
    assert RemoveTags(b) == b;
    assert CleanText(Some(t)).value == b;
    TrimEnds(a, IsPySpace);
    StripNoAdjacent(a);
    assert IsPySpace(' ');
  }

  /** Collapsing only introduces plain spaces. */
  lemma {:induction false} CollapseChars(s: string, c: char)
    requires c in Collapse(s) && c != ' '
    ensures c in s
    decreases |s|
  {
    if s != [] {
      if IsPySpace(s[0]) {
        var rest := TrimStart(s, IsPySpace);
        TrimStartShape(s, IsPySpace);
        assert Collapse(s) == [' '] + Collapse(rest);
        CollapseChars(rest, c);
        assert rest == s[|s| - |rest|..];
      } else if c != s[0] {
        assert Collapse(s) == [s[0]] + Collapse(s[1..]);
        CollapseChars(s[1..], c);
      }
    }
  }

  /** The 22 cities and counties, in the order the script tries them. */
  const Cities: seq<string> := [
    "台北市", "新北市", "桃園市", "台中市", "台南市", "高雄市",
    "基隆市", "新竹市", "嘉義市",
    "新竹縣", "苗栗縣", "彰化縣", "南投縣", "雲林縣",
    "嘉義縣", "屏東縣", "宜蘭縣", "花蓮縣", "台東縣", "澎湖縣", "金門縣", "連江縣"
  ]

  /** The characters that end a district name: 區, 鄉, 鎮 and 市. */
  predicate IsDistrictMark(c: char) { c in "區鄉鎮市" }

  function FirstMark(s: string): (k: nat)
    ensures k <= |s| && (k < |s| ==> IsDistrictMark(s[k]))
    ensures forall i :: 0 <= i < k ==> !IsDistrictMark(s[i])
  {
    if s == [] then 0 else if IsDistrictMark(s[0]) then 0 else 1 + FirstMark(s[1..])
  }

  /** re.match(r'^([^區鄉鎮市]*[區鄉鎮市])', rest): the text up to and including the first mark. */
  function District(rest: string): Option<string> {
    var k := FirstMark(rest);
    if k < |rest| then Some(rest[..k + 1]) else None
  }

  /** The first city in `cities` that `address` starts with. */
  function FirstCity(address: string, cities: seq<string>): (r: Option<string>)
    ensures r.Some? ==> r.value in cities && StartsWith(address, r.value)
    ensures r.None? ==> forall c :: c in cities ==> !StartsWith(address, c)
  {
    if cities == [] then None
    else if StartsWith(address, cities[0]) then Some(cities[0])
    else FirstCity(address, cities[1..])
  }

  /** The (city, district) pair parse_location_to_city_district returns. */
  function ParseSpec(full: Option<string>): (Option<string>, Option<string>) {
    match full
    case None => (None, None)
    case Some(a) =>
      var address := PyStrip(a);
      if address == "" then (None, None)
      else
        match FirstCity(address, Cities)
        case None => (None, None)
        case Some(c) => (Some(c), District(address[|c|..]))
  }

  /** The search loop of parse_location_to_city_district: try each city in order and stop at the first prefix. */
  method ParseLocation(full: Option<string>) returns (city: Option<string>, district: Option<string>)
    ensures (city, district) == ParseSpec(full)
  {
    city, district := None, None;
    if full.None? || PyStrip(full.value) == "" {
      return;
    }
    var address := PyStrip(full.value);
    city, district := SearchCities(address, Cities);
  }

  /** The loop itself, over the list it is given. */
  method SearchCities(address: string, cities: seq<string>) returns (city: Option<string>, district: Option<string>)
    ensures city == FirstCity(address, cities)
    ensures district == (match city case None => None case Some(c) => District(address[|c|..]))
  {
    city, district := None, None;
    var i := 0;
    while i < |cities|
      invariant 0 <= i <= |cities|
      invariant FirstCity(address, cities) == FirstCity(address, cities[i..])
      invariant city == None && district == None
    {
      var c := cities[i];
      if StartsWith(address, c) {
        city := Some(c);
        var remaining := address[|c|..];
        district := District(remaining);
        break;
      }
      assert cities[i..][1..] == cities[i + 1..];
      i := i + 1;
    }
  }

  lemma CitiesHaveThreeCharacters()
    ensures forall c :: c in Cities ==> |c| == 3
  {
  }

  /** When every candidate has the same length, the first match is the only match. */
  lemma FirstCityIsOnlyCity(address: string, cities: seq<string>, n: nat, c: string)
    requires forall d :: d in cities ==> |d| == n
    ensures FirstCity(address, cities) == Some(c) <==> c in cities && StartsWith(address, c)
  {
    if c in cities && StartsWith(address, c) {
      var f := FirstCity(address, cities);
      assert f.value == address[..n] == c;
    }
  }

  /** The city is set exactly when the stripped address starts with a listed name, and it is that name. */
  lemma CityIff(full: string, c: string)
    requires PyStrip(full) != ""
    ensures ParseSpec(Some(full)).0 == Some(c) <==> c in Cities && StartsWith(PyStrip(full), c)
  {
    var address := PyStrip(full);
    assert ParseSpec(Some(full)).0 == FirstCity(address, Cities);
    CitiesHaveThreeCharacters();
    FirstCityIsOnlyCity(address, Cities, 3, c);
  }

  /** The city is missing exactly when the stripped address starts with no listed name. */
  lemma NoCityIff(full: string)
    requires PyStrip(full) != ""
    ensures ParseSpec(Some(full)).0.None? <==> forall d :: d in Cities ==> !StartsWith(PyStrip(full), d)
  {
    var address := PyStrip(full);
    assert ParseSpec(Some(full)).0 == FirstCity(address, Cities);
  }

  /** A missing or blank address gives (None, None). */
  lemma BlankAddress(full: Option<string>)
    requires full.None? || forall i :: 0 <= i < |full.value| ==> IsPySpace(full.value[i])
    ensures ParseSpec(full) == (None, None)
  {
    if full.Some? { TrimEmptyIff(full.value, IsPySpace); }
  }

  /** The district pattern matches exactly when a mark occurs; its match is a prefix ending in the first mark. */
  lemma DistrictCut(rest: string)
    ensures District(rest).Some? <==> exists k :: 0 <= k < |rest| && IsDistrictMark(rest[k])
    ensures District(rest).Some? ==>
      var d := District(rest).value;
      && |d| >= 1 && IsDistrictMark(d[|d| - 1])
      && (forall i :: 0 <= i < |d| - 1 ==> !IsDistrictMark(d[i]))
      && StartsWith(rest, d)
  {
  }

  /** A district is only found after a city, and it ends in a district mark with no earlier mark. */
  lemma DistrictShape(full: Option<string>)
    ensures var (city, district) := ParseSpec(full);
      && (district.Some? ==> city.Some?)
      && (district.Some? ==>
            var d := district.value;
            |d| >= 1 && IsDistrictMark(d[|d| - 1])
            && forall i :: 0 <= i < |d| - 1 ==> !IsDistrictMark(d[i]))
  {
    var (city, district) := ParseSpec(full);
    if city.Some? {
      var address := PyStrip(full.value);
      assert district == District(address[|city.value|..]);
      DistrictCut(address[|city.value|..]);
    }
  }

  /** City followed by district is a prefix of the stripped address. */
  lemma CityDistrictPrefix(full: Option<string>)
    requires ParseSpec(full).0.Some?
    ensures var (city, district) := ParseSpec(full);
      StartsWith(PyStrip(full.value), city.value + (match district case None => "" case Some(d) => d))
  {
    var address := PyStrip(full.value);
    var c := FirstCity(address, Cities).value;
    assert ParseSpec(full) == (Some(c), District(address[|c|..]));
    DistrictCut(address[|c|..]);
    PrefixThen(address, c, match District(address[|c|..]) case None => "" case Some(d) => d);
  }

  /** A prefix of what follows a prefix extends it. */
  lemma PrefixThen(s: string, a: string, b: string)
    requires StartsWith(s, a) && StartsWith(s[|a|..], b)
    ensures StartsWith(s, a + b)
  {
    assert s[..|a| + |b|] == s[..|a|] + s[|a|..][..|b|];
  }

  /** A worked example: the district is cut at its first mark. */
  lemma ParseExample()
    ensures ParseSpec(Some(ExampleAddress)) == (Some("台北市"), Some("大安區"))
  {
    ExampleStripped();
    ExampleCity();
    ExampleDistrict();
  }

  const ExampleAddress: string := "台北市大安區復興南路一段"

  lemma ExampleStripped()
    ensures PyStrip(ExampleAddress) == ExampleAddress
  {
    var address := ExampleAddress;
    assert !IsPySpace(address[0]) && !IsPySpace(address[|address| - 1]);
    assert TrimStart(address, IsPySpace) == address;
    assert TrimEnd(address, IsPySpace) == address;
  }

  lemma ExampleCity()
    ensures FirstCity(ExampleAddress, Cities) == Some("台北市")
  {
    assert StartsWith(ExampleAddress, Cities[0]);
  }

  lemma ExampleDistrict()
    ensures District(ExampleAddress[3..]) == Some("大安區")
  {
    var rest := ExampleAddress[3..];
    assert !IsDistrictMark(rest[0]) && !IsDistrictMark(rest[1]) && IsDistrictMark(rest[2]);
    assert FirstMark(rest) == 2;
    assert rest[..3] == "大安區";
  }
}
