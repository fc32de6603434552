/**
 * The course search page: one request per keyword, the rule that turns a
 * response into a course list, the manual search box and the automatic
 * search started from navigation state, whose per-keyword results are
 * merged in keyword order. Responses are given as parameters, one per
 * request, in keyword order.
 */
module CourseSearch {
  import opened Text
  import opened Json

  /** How a request to the recommendation endpoint ended: a parsed body, or an exception (network or parse). */
  datatype Reply = Body(data: Value) | Error

  /** fetchCourses: the body's data when its status is "success", otherwise (and on any error) an empty list. */
  function FetchResult(reply: Reply): Value
  {
    match reply
    case Error => JArr([])
    case Body(data) => if Get(data, "status") == JStr("success") then Get(data, "data") else JArr([])
  }

  /** Array.prototype.flat with depth one: arrays are spliced in, other values kept as single elements. */
  function Flat(parts: seq<Value>): seq<Value> {
    if parts == [] then [] else (if parts[0].JArr? then parts[0].items else [parts[0]]) + Flat(parts[1..])
  }

  /** How many elements a part adds to the merged list. */
  function PartSize(v: Value): nat {
    if v.JArr? then |v.items| else 1
  }

  function SumSizes(parts: seq<Value>): nat {
    if parts == [] then 0 else PartSize(parts[0]) + SumSizes(parts[1..])
  }

  /** The navigation state's search request: the keyword list first, then the single keyword. */
  function Incoming(state: Value): Value
  {
    Or(Get(state, "autoSearchKeywords"), Get(state, "autoSearch"))
  }

  /** The keywords searched for a truthy request: an array as given, anything else as a single keyword. */
  function KeywordsOf(incoming: Value): seq<Value> {
    if incoming.JArr? then incoming.items else [incoming]
  }

  /** What the search box shows for a request: the keywords joined by ", ", or the request itself. */
  function QueryOf(incoming: Value): Value {
    if incoming.JArr? then JStr(JoinValues(incoming.items, ", ")) else incoming
  }

  class CourseRecommendation {
    /** The search box; navigation state can put a non-string value here. */
    var query: Value
    var courses: Value
    var loading: bool
    var hasSearched: bool

    constructor()
      ensures query == JStr("") && courses == JArr([]) && !loading && !hasSearched
    {
      query := JStr("");
      courses := JArr([]);
      loading := false;
      hasSearched := false;
    }

    /**
     * handleManualSearch: a blank box does nothing (a non-string one throws
     * at trim before any change); otherwise the untrimmed text is searched
     * and its result replaces the courses.
     */
    method HandleManualSearch(reply: Reply)
      modifies this
      ensures !(query.JStr? && JsTrim(query.s) != "") ==>
        courses == old(courses) && loading == old(loading) && hasSearched == old(hasSearched)
      ensures query.JStr? && JsTrim(query.s) != "" ==>
        courses == FetchResult(reply) && !loading && hasSearched
      ensures query == old(query)
    {
      var blank := !(query.JStr? && JsTrim(query.s) != "");
      if !blank {
        loading := true;
        hasSearched := true;
        courses := JArr([]);
        var results := FetchResult(reply);
        courses := results;
        loading := false;
      }
    }

    /**
     * initAutoSearch: with a truthy request, search every keyword, one reply
     * each, and show the replies' results merged in keyword order.
     */
    method InitAutoSearch(state: Value, replies: seq<Reply>)
      requires Truthy(Incoming(state)) ==> |replies| == |KeywordsOf(Incoming(state))|
      modifies this
      ensures !Truthy(Incoming(state)) ==>
        query == old(query) && courses == old(courses) && loading == old(loading) && hasSearched == old(hasSearched)
      ensures Truthy(Incoming(state)) ==>
        && query == QueryOf(Incoming(state))
        && courses == JArr(Flat(seq(|replies|, i requires 0 <= i < |replies| => FetchResult(replies[i]))))
        && !loading && hasSearched
    {
      var incoming := Incoming(state);
      if Truthy(incoming) {
        loading := true;
        hasSearched := true;
        courses := JArr([]);
        var keywords: seq<Value>;
        if incoming.JArr? {
          keywords := incoming.items;
          query := JStr(JoinValues(keywords, ", "));
        } else {
          keywords := [incoming];
          query := incoming;
        }
        var resultsArray := seq(|keywords|, i requires 0 <= i < |keywords| => FetchResult(replies[i]));
        courses := JArr(Flat(resultsArray));
        loading := false;
      }
    }
  }

  /** The merged list of two runs of keywords is the first's merged list followed by the second's. */
  lemma {:induction false} FlatAppend(a: seq<Value>, b: seq<Value>)
    ensures Flat(a + b) == Flat(a) + Flat(b)
  {
    if a == [] {
      assert a + b == b;
    } else {
      assert (a + b)[0] == a[0];
      assert (a + b)[1..] == a[1..] + b;
      FlatAppend(a[1..], b);
    }
  }

  /** The merged list is as long as its parts together. */
  lemma {:induction false} FlatLength(parts: seq<Value>)
    ensures |Flat(parts)| == SumSizes(parts)
  {
    if parts != [] {
      FlatLength(parts[1..]);
    }
  }

  /** With every reply a list, each keyword's courses appear in order as one block of the merged list. */
  lemma {:induction false} FlatOfLists(parts: seq<Value>, k: nat)
    requires k < |parts| && forall i :: 0 <= i < |parts| ==> parts[i].JArr?
    ensures Flat(parts) == Flat(parts[..k]) + parts[k].items + Flat(parts[k + 1..])
  {
    assert parts == parts[..k] + [parts[k]] + parts[k + 1..];
    FlatAppend(parts[..k] + [parts[k]], parts[k + 1..]);
    FlatAppend(parts[..k], [parts[k]]);
    assert Flat([parts[k]]) == parts[k].items + Flat([]);
  }

  /** A keyword whose request fails, or whose reply is not a success, adds nothing and leaves the others' courses where they were. */
  lemma FailureContributesNothing(a: seq<Value>, reply: Reply, b: seq<Value>)
    requires reply.Error? || Get(reply.data, "status") != JStr("success")
    ensures Flat(a + [FetchResult(reply)] + b) == Flat(a) + Flat(b)
  {
    assert FetchResult(reply) == JArr([]);
    FlatSkipsEmpty(a, b);
  }

  /** An empty array among the parts adds nothing to the flattened list. */
  lemma FlatSkipsEmpty(a: seq<Value>, b: seq<Value>)
    ensures Flat(a + [JArr([])] + b) == Flat(a) + Flat(b)
  {
    var empty := [JArr([])];
    assert Flat(empty) == [] by { assert empty[1..] == []; }
    FlatAppend(a + empty, b);
    FlatAppend(a, empty);
  }

  /** A successful reply whose data is a list adds exactly that list, in place among the other keywords' courses. */
  lemma SuccessContributesData(a: seq<Value>, data: Value, b: seq<Value>)
    requires Get(data, "status") == JStr("success") && Get(data, "data").JArr?
    ensures Flat(a + [FetchResult(Body(data))] + b) == Flat(a) + Get(data, "data").items + Flat(b)
  {
    var part := FetchResult(Body(data));
    FlatAppend(a + [part], b);
    FlatAppend(a, [part]);
    assert Flat([part]) == part.items + Flat([]);
  }

  /** The keyword list wins over the single keyword, even an empty list: arrays are truthy. */
  lemma EmptyListStillSearches()
    ensures var state := JObj(map["autoSearchKeywords" := JArr([]), "autoSearch" := JStr("Python")]);
      && Incoming(state) == JArr([]) && Truthy(Incoming(state))
      && KeywordsOf(Incoming(state)) == [] && QueryOf(Incoming(state)) == JStr("")
  {
  }

  /** Without either key (or without state) no search starts. */
  lemma NoRequestNoSearch()
    ensures !Truthy(Incoming(JNull)) && !Truthy(Incoming(JObj(map[])))
  {
  }

  /** Keyword lists show in the box joined by ", ". */
  lemma QueryJoin()
    ensures QueryOf(JArr([JStr("Python"), JStr("SQL")])) == JStr("Python, SQL")
  {
    assert JArr([JStr("Python"), JStr("SQL")]).items[1..] == [JStr("SQL")];
  }
}
