/**
 * `GET /api/messages?room&before&limit&search`: a read-only query over a snapshot
 * of the per-room logs. The pipeline is a case-insensitive search, then a strict
 * `before` filter, then the last `limit` matches, oldest first.
 */
module History {
  import opened Wrappers
  import opened Seqs
  import opened Text
  import opened MessageStore

  /** The query string; an absent parameter is `None`. A present `limit` is already a number. */
  datatype Request = Request(
    room: Option<string>,
    before: Option<int>,
    limit: Option<int>,
    search: Option<string>)

  /** The 400 reply `{ error: "room is required" }`. */
  datatype QueryError = RoomRequired

  const DefaultLimit: int := 20

  /** The message text or the sender's name contains `q`, ignoring ASCII case. */
  predicate Matches(m: Msg, q: string) {
    Contains(Lower(m.message), Lower(q)) || Contains(Lower(m.sender), Lower(q))
  }

  /** `m` survives the search step: no search text, or a match. */
  predicate PassesSearch(m: Msg, search: Option<string>) {
    !Truthy(search) || Matches(m, search.value)
  }

  /** `m` survives the pagination step: no `before`, or strictly older. */
  predicate PassesBefore(m: Msg, before: Option<int>) {
    before.None? || m.timestamp < before.value
  }

  /** The search filter `m => (m.message || "").toLowerCase().includes(q) || …`. */
  function MatchesText(q: string): Msg -> bool {
    (m: Msg) => Matches(m, q)
  }

  /** The pagination filter `m => m.timestamp < before`. */
  function OlderThan(before: int): Msg -> bool {
    (m: Msg) => m.timestamp < before
  }

  /** The search step. */
  function SearchStep(log: seq<Msg>, search: Option<string>): (r: seq<Msg>) {
    if Truthy(search) then Filter(log, MatchesText(search.value)) else log
  }

  /** The pagination step. */
  function BeforeStep(log: seq<Msg>, before: Option<int>): (r: seq<Msg>) {
    if before.Some? then Filter(log, OlderThan(before.value)) else log
  }

  /** Both filters, in the order the handler applies them. */
  function Selected(log: seq<Msg>, search: Option<string>, before: Option<int>): (r: seq<Msg>)
    ensures forall m :: m in r <==> m in log && PassesSearch(m, search) && PassesBefore(m, before)
    ensures forall m :: multiset(r)[m] ==
                        if PassesSearch(m, search) && PassesBefore(m, before) then multiset(log)[m] else 0
    ensures IsSubsequence(r, log)
  {
    var searched := SearchStep(log, search);
    var paged := BeforeStep(searched, before);
    SubsequenceReflexive(log);
    SubsequenceReflexive(searched);
    FilterCount(log, MatchesText(search.GetOr("")));
    FilterCount(searched, OlderThan(before.GetOr(0)));
    SubsequenceTransitive(paged, searched, log);
    paged
  }

  /** `list.slice(Math.max(0, list.length - limit))`: the last `limit` entries. */
  function TakeLast<T>(list: seq<T>, limit: int): (r: seq<T>)
    ensures |r| == if limit <= 0 then 0 else Min(|list|, limit)
    ensures r == list[|list| - |r|..]
  {
    var start := Max(0, |list| - limit);
    if start >= |list| then [] else list[start..]
  }

  /** The whole handler. */
  function Query(byRoom: map<Room, seq<Msg>>, req: Request): (r: Result<seq<Msg>, QueryError>)
    ensures r.Failure? <==> !Truthy(req.room)
    ensures r.Success? ==>
      var log := Partition(byRoom, req.room.value);
      var matches := Selected(log, req.search, req.before);
      var limit := req.limit.GetOr(DefaultLimit);
      && |r.value| == (if limit <= 0 then 0 else Min(|matches|, limit))
      && r.value == matches[|matches| - |r.value|..]
      && IsSubsequence(r.value, log)
      && (forall m :: m in r.value ==>
            m in log && PassesSearch(m, req.search) && PassesBefore(m, req.before))
  {
    if !Truthy(req.room) then Failure(RoomRequired)
    else
      var log := Partition(byRoom, req.room.value);
      var matches := Selected(log, req.search, req.before);
      var result := TakeLast(matches, req.limit.GetOr(DefaultLimit));
      SuffixIsSubsequence(matches, |matches| - |result|);
      SubsequenceTransitive(result, matches, log);
      Success(result)
  }

  /** A room that has never received a message answers with an empty list. */
  lemma UnknownRoomIsEmpty(byRoom: map<Room, seq<Msg>>, req: Request)
    requires Truthy(req.room) && req.room.value !in byRoom
    ensures Query(byRoom, req) == Success([])
  {
  }

  /** With no filters and a large enough limit the query returns the whole room log. */
  lemma UnfilteredReturnsLog(byRoom: map<Room, seq<Msg>>, room: string, limit: int)
    requires room != "" && limit >= |Partition(byRoom, room)|
    ensures Query(byRoom, Request(Some(room), None, Some(limit), None)) == Success(Partition(byRoom, room))
  {
  }

  /** The search ignores the ASCII case of the search text. */
  lemma {:induction false} SearchIgnoresCase(byRoom: map<Room, seq<Msg>>, req: Request, q: string)
    requires Truthy(req.search) && Lower(q) == Lower(req.search.value)
    ensures Query(byRoom, req.(search := Some(q))) == Query(byRoom, req)
  {
    if Truthy(req.room) {
      var log := Partition(byRoom, req.room.value);
      assert |q| == |req.search.value|;
      FilterCongruent(log, MatchesText(q), MatchesText(req.search.value));
    }
  }

  /** A message newer than `before`, or one that does not match the search, is never returned. */
  lemma FilteredOut(byRoom: map<Room, seq<Msg>>, req: Request, m: Msg)
    requires !PassesSearch(m, req.search) || !PassesBefore(m, req.before)
    ensures Query(byRoom, req).Success? ==> m !in Query(byRoom, req).value
  {
  }
}
