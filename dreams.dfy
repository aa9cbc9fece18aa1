// pages/api/dreams/index.ts and models/DreamQuery.ts: the per-user log of
// interpreted dreams. The collection is a class holding the records in insertion
// order; the route authenticates the bearer token, then lists the caller's
// records newest first (GET) or appends one (POST). Token verification, the
// database connection and the clock are inputs.

module Dreams {
  import opened Text

  /** A stored `DreamQuery` document. */
  datatype DreamRecord = DreamRecord(id: nat, userId: nat, dreamText: string, interpretation: string, createdAt: int)

  /** A record as GET lists it: `select('dreamText interpretation createdAt')`
      keeps those fields and `_id`. */
  datatype DreamView = DreamView(id: nat, dreamText: string, interpretation: string, createdAt: int)

  /** The body of a POST; a missing or falsy property is "". */
  datatype DreamBody = NoDreamBody | DreamForm(dreamText: string, interpretation: string)

  /** What the route writes: a JSON error, the listed records, the created
      record, or the plain text of `res.end(...)`. */
  datatype Payload =
    | Error(error: string)
    | Records(dreams: seq<DreamView>)
    | Created(record: DreamRecord)
    | Text(text: string)

  datatype Response = Response(status: int, payload: Payload)

  /** The two errors `authenticate` rejects with. */
  datatype AuthError = NoToken | InvalidToken

  const Unauthorized := "Unauthorized"
  const InternalServerError := "Internal server error"
  /** The 400 message as the source file spells it (its "ü" is mis-encoded). */
  const FieldsRequired := "RÃ¼ya metni ve yorumu gereklidir"
  const MaxDreamText := 500

  // ---------------------------------------------------------------------------
  // Authentication

  const BearerPrefix := "Bearer "

  /** With the `Bearer ` prefix the first space is the one right after `Bearer`. */
  lemma BearerSpace(h: string)
    requires StartsWith(h, BearerPrefix)
    ensures IndexOf(h, " ") == Some(6)
  {
    assert h[..7] == BearerPrefix;
    assert OccursAt(h, " ", 6);
    var k := IndexOf(h, " ").value;
    assert k <= 6;
    assert h[k] == ' ' by { assert h[k..k + 1] == " "; }
    assert h[k] == BearerPrefix[k];
  }

  /** Splitting a bearer header at spaces gives `Bearer` and then the fields of
      the rest. */
  lemma BearerSplit(h: string)
    requires StartsWith(h, BearerPrefix)
    ensures Split(h, " ") == ["Bearer"] + Split(h[7..], " ")
  {
    BearerSpace(h);
    assert h[..6] == "Bearer";
  }

  /** `authHeader.split(' ')[1]`: the field after `Bearer`. */
  function Token(h: string): (t: string)
    requires StartsWith(h, BearerPrefix)
    ensures !Contains(t, " ")
  {
    BearerSplit(h);
    SplitJoin(h[7..], " ");
    Split(h, " ")[1]
  }

  /** The token of `Bearer ` followed by `u` is the first space-separated field of `u`. */
  lemma TokenAfterPrefix(u: string)
    ensures StartsWith(BearerPrefix + u, BearerPrefix)
    ensures Token(BearerPrefix + u) == Split(u, " ")[0]
  {
    var h := BearerPrefix + u;
    assert h[..7] == BearerPrefix;
    BearerSplit(h);
    assert h[7..] == u;
  }

  /** A header built as `Bearer <token>` from a token without spaces yields that
      token back; any further space-separated fields are ignored. */
  lemma TokenOfHeader(t: string, rest: string)
    requires !Contains(t, " ")
    ensures Token(BearerPrefix + t) == t
    ensures Token(BearerPrefix + t + " " + rest) == t
  {
    TokenAfterPrefix(t);
    SplitWithoutSeparator(t, " ");
    TokenAfterPrefix(t + " " + rest);
    assert BearerPrefix + t + " " + rest == BearerPrefix + (t + " " + rest);
    FirstField(t, rest);
  }

  lemma FirstField(t: string, rest: string)
    requires !Contains(t, " ")
    ensures Split(t + " " + rest, " ")[0] == t
  {
    var s := t + " " + rest;
    forall j: nat | j < |t| ensures !OccursAt(s, " ", j) {
      assert !OccursAt(t, " ", j);
      assert s[j..j + 1] == t[j..j + 1];
    }
    assert s[|t|..|t| + 1] == " ";
    assert OccursAt(s, " ", |t|);
    IndexOfIs(s, " ", |t|);
    assert s[..|t|] == t;
  }

  /** `authenticate`: no header, or one not starting with `Bearer `, is
      `No token provided`; a token `verify` refuses is `Invalid token`; otherwise
      the `userId` the token carries. */
  function Authenticate(header: Option<string>, verify: string -> Option<nat>): (r: Result<nat, AuthError>)
    ensures r.Ok? <==> header.Some? && StartsWith(header.value, BearerPrefix) && verify(Token(header.value)).Some?
    ensures r.Ok? ==> verify(Token(header.value)) == Some(r.value)
    ensures r == Err(NoToken) <==> header.None? || !StartsWith(header.value, BearerPrefix)
  {
    if header.None? || header.value == [] || !StartsWith(header.value, BearerPrefix) then Err(NoToken)
    else match verify(Token(header.value))
      case None => Err(InvalidToken)
      case Some(userId) => Ok(userId)
  }

  // ---------------------------------------------------------------------------
  // Records (models/DreamQuery.ts)

  /** A document the schema accepts: `dreamText` and `interpretation` present
      (`required` refuses ""), `dreamText` at most 500 long. */
  predicate ValidRecord(r: DreamRecord)
  {
    r.dreamText != [] && |r.dreamText| <= MaxDreamText && r.interpretation != []
  }

  function View(r: DreamRecord): (v: DreamView)
    ensures v.id == r.id && v.dreamText == r.dreamText && v.interpretation == r.interpretation && v.createdAt == r.createdAt
  {
    DreamView(r.id, r.dreamText, r.interpretation, r.createdAt)
  }

  /** `find({ userId })` with the projection: the caller's records, in store order. */
  function Owned(records: seq<DreamRecord>, userId: nat): (r: seq<DreamView>)
    ensures |r| <= |records|
  {
    if records == [] then []
    else (if records[0].userId == userId then [View(records[0])] else []) + Owned(records[1..], userId)
  }

  lemma {:induction false} OwnedAppend(a: seq<DreamRecord>, b: seq<DreamRecord>, userId: nat)
    ensures Owned(a + b, userId) == Owned(a, userId) + Owned(b, userId)
  {
    if a != [] {
      assert (a + b)[1..] == a[1..] + b;
      OwnedAppend(a[1..], b, userId);
    } else {
      assert a + b == b;
    }
  }

  /** A record is listed for a user exactly when it is one of theirs. */
  lemma {:induction false} OwnedMembers(records: seq<DreamRecord>, userId: nat)
    ensures forall r :: r in records && r.userId == userId ==> View(r) in Owned(records, userId)
    ensures forall v :: v in Owned(records, userId) ==> exists r :: r in records && r.userId == userId && View(r) == v
  {
    if records != [] {
      OwnedMembers(records[1..], userId);
      assert records == [records[0]] + records[1..];
    }
  }

  /** Newest first: no view is older than one after it. */
  predicate NewestFirst(s: seq<DreamView>)
  {
    forall i, j :: 0 <= i < j < |s| ==> s[i].createdAt >= s[j].createdAt
  }

  /** Places `v` into a newest-first list: before the first older entry, after
      the entries at least as new. */
  function InsertByDate(v: DreamView, s: seq<DreamView>): (r: seq<DreamView>)
    ensures |r| == |s| + 1
    ensures multiset(r) == multiset(s) + multiset{v}
  {
    if s == [] || v.createdAt >= s[0].createdAt then [v] + s
    else
      assert s == [s[0]] + s[1..];
      [s[0]] + InsertByDate(v, s[1..])
  }

  lemma {:induction false} InsertByDateSorted(v: DreamView, s: seq<DreamView>)
    requires NewestFirst(s)
    ensures NewestFirst(InsertByDate(v, s))
    ensures InsertByDate(v, s) != [] && (InsertByDate(v, s)[0] == v || (s != [] && InsertByDate(v, s)[0] == s[0]))
  {
    if s != [] && v.createdAt < s[0].createdAt {
      InsertByDateSorted(v, s[1..]);
      var t := InsertByDate(v, s[1..]);
      InsertByDateBounded(s[0].createdAt, v, s[1..]);
      assert InsertByDate(v, s) == [s[0]] + t;
      forall i, j | 0 <= i < j < |[s[0]] + t| ensures ([s[0]] + t)[i].createdAt >= ([s[0]] + t)[j].createdAt {
        assert ([s[0]] + t)[j] == t[j - 1];
        if i > 0 {
          assert ([s[0]] + t)[i] == t[i - 1];
        }
      }
    }
  }

  /** Inserting a view no newer than a date into views no newer than it gives
      views no newer than it. */
  lemma {:induction false} InsertByDateBounded(d: int, v: DreamView, s: seq<DreamView>)
    requires v.createdAt <= d && forall k :: 0 <= k < |s| ==> s[k].createdAt <= d
    ensures forall k :: 0 <= k < |InsertByDate(v, s)| ==> InsertByDate(v, s)[k].createdAt <= d
  {
    if s != [] && v.createdAt < s[0].createdAt {
      InsertByDateBounded(d, v, s[1..]);
      var t := InsertByDate(v, s[1..]);
      assert InsertByDate(v, s) == [s[0]] + t;
      forall k | 0 <= k < |[s[0]] + t| ensures ([s[0]] + t)[k].createdAt <= d {
        if k > 0 {
          assert ([s[0]] + t)[k] == t[k - 1];
        }
      }
    } else {
      assert InsertByDate(v, s) == [v] + s;
      forall k | 0 <= k < |[v] + s| ensures ([v] + s)[k].createdAt <= d {
        if k > 0 {
          assert ([v] + s)[k] == s[k - 1];
        }
      }
    }
  }

  /** `.sort({ createdAt: -1 })`, by insertion; records with the same date keep
      their store order. */
  function SortNewestFirst(s: seq<DreamView>): (r: seq<DreamView>)
    ensures |r| == |s|
  {
    if s == [] then [] else InsertByDate(s[0], SortNewestFirst(s[1..]))
  }

  /** The sort returns the same views, newest first. */
  lemma SortNewestFirstCorrect(s: seq<DreamView>)
    ensures NewestFirst(SortNewestFirst(s))
    ensures multiset(SortNewestFirst(s)) == multiset(s)
  {
    SortNewestFirstSorted(s);
    SortNewestFirstPermutes(s);
  }

  lemma {:induction false} SortNewestFirstSorted(s: seq<DreamView>)
    ensures NewestFirst(SortNewestFirst(s))
  {
    if s != [] {
      SortNewestFirstSorted(s[1..]);
      InsertByDateSorted(s[0], SortNewestFirst(s[1..]));
    }
  }

  lemma {:induction false} SortNewestFirstPermutes(s: seq<DreamView>)
    ensures multiset(SortNewestFirst(s)) == multiset(s)
  {
    if s != [] {
      SortNewestFirstPermutes(s[1..]);
      assert s == [s[0]] + s[1..];
    }
  }

  /** What GET lists for a user. */
  function History(records: seq<DreamRecord>, userId: nat): seq<DreamView>
  {
    SortNewestFirst(Owned(records, userId))
  }

  /** The listing is newest first and holds exactly the user's records, each as
      often as it is stored. */
  lemma HistoryIsOwnedNewestFirst(records: seq<DreamRecord>, userId: nat)
    ensures NewestFirst(History(records, userId))
    ensures multiset(History(records, userId)) == multiset(Owned(records, userId))
    ensures forall r :: r in records && r.userId == userId ==> View(r) in History(records, userId)
    ensures forall v :: v in History(records, userId) ==> exists r :: r in records && r.userId == userId && View(r) == v
  {
    SortNewestFirstCorrect(Owned(records, userId));
    OwnedMembers(records, userId);
    var h := History(records, userId);
    forall v | v in h ensures v in Owned(records, userId) {
      assert v in multiset(h);
    }
    forall r | r in records && r.userId == userId ensures View(r) in h {
      assert View(r) in multiset(Owned(records, userId));
    }
  }

  /** A record stored for someone else does not change a user's listing. */
  lemma OthersRecordsInvisible(records: seq<DreamRecord>, r: DreamRecord, userId: nat)
    requires r.userId != userId
    ensures History(records + [r], userId) == History(records, userId)
  {
    OwnedAppend(records, [r], userId);
    assert Owned([r], userId) == [];
    assert Owned(records, userId) + [] == Owned(records, userId);
  }

  /** A record stored for the user is listed for them afterwards. */
  lemma OwnRecordListed(records: seq<DreamRecord>, r: DreamRecord)
    ensures View(r) in History(records + [r], r.userId)
  {
    HistoryIsOwnedNewestFirst(records + [r], r.userId);
  }

  // ---------------------------------------------------------------------------
  // The route

  /** What a request does: the response and the record it stores, if any. */
  datatype DreamOutcome = DreamOutcome(response: Response, added: Option<DreamRecord>)

  function Answer(r: Response): DreamOutcome
  {
    DreamOutcome(r, None)
  }

  /** The route against the stored records and the next id. `connected` says
      whether `connectDB` succeeded, `verify` checks a token, `now` is the
      creation time. Authentication comes before the method is looked at. A
      schema violation (`dreamText` over 500) is not a 400: the thrown
      ValidationError reaches the catch-all 500. */
  function HandleResult(records: seq<DreamRecord>, nextId: nat, verb: string, header: Option<string>,
                        body: DreamBody, connected: bool, verify: string -> Option<nat>, now: int): (o: DreamOutcome)
    ensures o.response.status in {200, 201, 400, 401, 405, 500}
    ensures o.response.status == 401 <==> connected && Authenticate(header, verify).Err?
    ensures o.response.status == 401 ==> o.response.payload == Error(Unauthorized)
    ensures o.response.status == 200 <==> connected && Authenticate(header, verify).Ok? && verb == "GET"
    ensures o.response.status == 200 ==>
      o.response.payload == Records(History(records, Authenticate(header, verify).value))
    ensures o.added.Some? <==> o.response.status == 201
    ensures o.added.Some? ==>
      var r := o.added.value;
      && verb == "POST" && Authenticate(header, verify) == Ok(r.userId)
      && body == DreamForm(r.dreamText, r.interpretation)
      && ValidRecord(r) && r.id == nextId && r.createdAt == now
      && o.response.payload == Created(r)
    ensures !connected ==> o == Answer(Response(500, Error(InternalServerError)))
    ensures connected && Authenticate(header, verify).Ok? && verb == "POST" ==>
      var userId := Authenticate(header, verify).value;
      && (body.NoDreamBody? ==> o == Answer(Response(500, Error(InternalServerError))))
      && (body.DreamForm? && (body.dreamText == [] || body.interpretation == []) ==>
            o == Answer(Response(400, Error(FieldsRequired))))
      && (body.DreamForm? && body.dreamText != [] && body.interpretation != [] && |body.dreamText| > MaxDreamText ==>
            o == Answer(Response(500, Error(InternalServerError))))
      && (body.DreamForm? && body.dreamText != [] && body.interpretation != [] && |body.dreamText| <= MaxDreamText ==>
            o.response.status == 201 && o.added == Some(DreamRecord(nextId, userId, body.dreamText, body.interpretation, now)))
  {
    if !connected then Answer(Response(500, Error(InternalServerError)))
    else match Authenticate(header, verify)
      case Err(_) => Answer(Response(401, Error(Unauthorized)))
      case Ok(userId) =>
        if verb == "GET" then Answer(Response(200, Records(History(records, userId))))
        else if verb == "POST" then
          if body.NoDreamBody? then Answer(Response(500, Error(InternalServerError)))
          else if body.dreamText == [] || body.interpretation == [] then Answer(Response(400, Error(FieldsRequired)))
          else if |body.dreamText| > MaxDreamText then Answer(Response(500, Error(InternalServerError)))
          else
            var r := DreamRecord(nextId, userId, body.dreamText, body.interpretation, now);
            DreamOutcome(Response(201, Created(r)), Some(r))
        else Answer(Response(405, Text("Method " + verb + " Not Allowed")))
  }

  /** Without a usable token every method, even an unsupported one, gets 401 and
      nothing is stored. */
  lemma UnauthenticatedGets401(records: seq<DreamRecord>, nextId: nat, verb: string, header: Option<string>,
                               body: DreamBody, verify: string -> Option<nat>, now: int)
    requires header.None? || !StartsWith(header.value, BearerPrefix) || verify(Token(header.value)).None?
    ensures HandleResult(records, nextId, verb, header, body, true, verify, now) == Answer(Response(401, Error(Unauthorized)))
  {
  }

  /** An authenticated request with another method gets 405 naming the method. */
  lemma OtherMethodsRefused(records: seq<DreamRecord>, nextId: nat, verb: string, header: Option<string>,
                            body: DreamBody, verify: string -> Option<nat>, now: int)
    requires verb != "GET" && verb != "POST"
    requires Authenticate(header, verify).Ok?
    ensures HandleResult(records, nextId, verb, header, body, true, verify, now)
         == Answer(Response(405, Text("Method " + verb + " Not Allowed")))
  {
  }

  // ---------------------------------------------------------------------------
  // The collection

  /** Every record satisfies the schema and has an id below `nextId`; no two
      records share an id. */
  predicate ValidStore(records: seq<DreamRecord>, nextId: nat)
  {
    && (forall i :: 0 <= i < |records| ==> ValidRecord(records[i]) && records[i].id < nextId)
    && (forall i, j :: 0 <= i < j < |records| ==> records[i].id != records[j].id)
  }

  /** The `dreamqueries` collection in insertion order, and the next id. */
  class DreamStore {
    var records: seq<DreamRecord>
    var nextId: nat

    predicate Valid()
      reads this
    {
      ValidStore(records, nextId)
    }

    constructor ()
      ensures Valid() && records == [] && nextId == 0
    {
      records := [];
      nextId := 0;
    }

    /** The route: answers as `HandleResult` says and appends the record it
        creates, if any; nothing else changes. */
    method Handle(verb: string, header: Option<string>, body: DreamBody, connected: bool,
                  verify: string -> Option<nat>, now: int) returns (r: Response)
      requires Valid()
      modifies this
      ensures Valid()
      ensures var o := HandleResult(old(records), old(nextId), verb, header, body, connected, verify, now);
        && r == o.response
        && (o.added.None? ==> records == old(records) && nextId == old(nextId))
        && (o.added.Some? ==> records == old(records) + [o.added.value] && nextId == old(nextId) + 1)
    {
      if !connected {
        return Response(500, Error(InternalServerError));
      }
      var auth := Authenticate(header, verify);
      if auth.Err? {
        return Response(401, Error(Unauthorized));
      }
      var userId := auth.value;
      if verb == "GET" {
        return Response(200, Records(History(records, userId)));
      }
      if verb != "POST" {
        return Response(405, Text("Method " + verb + " Not Allowed"));
      }
      if body.NoDreamBody? {
        return Response(500, Error(InternalServerError));
      }
      var dreamText, interpretation := body.dreamText, body.interpretation;
      if dreamText == [] || interpretation == [] {
        return Response(400, Error(FieldsRequired));
      }
      if |dreamText| > MaxDreamText {
        return Response(500, Error(InternalServerError));
      }
      var record := DreamRecord(nextId, userId, dreamText, interpretation, now);
      records := records + [record];
      nextId := nextId + 1;
      return Response(201, Created(record));
    }
  }
}
