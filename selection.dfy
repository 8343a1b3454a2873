/**
 * The selection pass of the cleanup script: walking the server's application
 * list in order, looking up each application's latest scan and marking those
 * scanned before the cutoff.
 */
module Selection {
  import opened Wrappers
  import opened Json
  import opened ScanDate
  import PyStr

  /** The record kept for an application marked for deletion. */
  datatype Candidate = Candidate(name: Value, publicId: Value, idForApis: Value, latestScanDay: int)

  /**
   * What the selection pass works against: the server's report history for
   * each internal id (an empty list when the request fails), the date
   * parsers, and the cutoff day.
   */
  datatype Env = Env(history: Value -> seq<Object>, parsers: Parsers, cutoffDay: int)
  {
    /** Midnight UTC of the cutoff day. */
    function Cutoff(): Instant
    {
      Midnight(cutoffDay)
    }
  }

  /** How the pass disposes of one application. */
  datatype Verdict =
    | MissingId          // `id` absent or falsy: skipped before any request
    | NoHistory          // no reports: skipped
    | NoScanDate         // the latest report has no truthy `evaluationDate`: skipped
    | DateNotText        // a truthy `evaluationDate` that is not a string: the ISO parser raises TypeError, which is not caught
    | Unparsable         // no parser accepts the timestamp: skipped
    | Retained(at: Instant)
    | Stale(at: Instant)

  /** The internal id used for the history and delete requests: `app.get('id')`. */
  function ApiId(app: Object): (id: Value)
    ensures Truthy(id) ==> "id" in app && id == app["id"]
    ensures "id" !in app ==> id == Null
  {
    Get(app, "id")
  }

  const UnnamedPrefix: string := "UnnamedApp_Idx"

  /**
   * `app.get('name', f'UnnamedApp_Idx{idx}')`: the app's own name when the
   * key is present (even a null one), otherwise the prefix followed by the
   * digits of the index.
   */
  function DisplayName(app: Object, idx: nat): (name: Value)
    ensures "name" in app ==> name == app["name"]
    ensures "name" !in app ==>
      && name.Str? && |name.s| > |UnnamedPrefix|
      && name.s[..|UnnamedPrefix|] == UnnamedPrefix
      && (forall i :: |UnnamedPrefix| <= i < |name.s| ==> '0' <= name.s[i] <= '9')
      && (|name.s| > |UnnamedPrefix| + 1 ==> name.s[|UnnamedPrefix|] != '0')
      && PyStr.DecimalValue(name.s[|UnnamedPrefix|..]) == idx
  {
    var digits := PyStr.Decimal(idx);
    PyStr.DecimalRoundTrip(idx);
    var fallback := UnnamedPrefix + digits;
    assert fallback[..|UnnamedPrefix|] == UnnamedPrefix && fallback[|UnnamedPrefix|..] == digits;
    GetOr(app, "name", Str(fallback))
  }

  /** `app.get('publicId', 'UnknownPublicId')`: the app's own public id when the key is present. */
  function DisplayPublicId(app: Object): (publicId: Value)
    ensures "publicId" in app ==> publicId == app["publicId"]
    ensures "publicId" !in app ==> publicId == Str("UnknownPublicId")
  {
    GetOr(app, "publicId", Str("UnknownPublicId"))
  }

  /** The first (most recent) report of an application with a usable id, if it has any. */
  function LatestReport(env: Env, app: Object): Option<Object>
  {
    var id := ApiId(app);
    if Truthy(id) && env.history(id) != [] then Some(env.history(id)[0]) else None
  }

  /** The `evaluationDate` of that report, or `None` when there is no such report. */
  function LatestDate(env: Env, app: Object): Value
  {
    match LatestReport(env, app)
    case Some(report) => Get(report, "evaluationDate")
    case None => Null
  }

  /** The verdict on one application; only the first (most recent) report is consulted. */
  function Classify(env: Env, app: Object): (v: Verdict)
    ensures v.MissingId? <==> !Truthy(ApiId(app))
    ensures v.NoHistory? <==> Truthy(ApiId(app)) && env.history(ApiId(app)) == []
    ensures v.NoScanDate? <==> LatestReport(env, app).Some? && !Truthy(Get(LatestReport(env, app).value, "evaluationDate"))
    ensures v.DateNotText? <==>
      var date := LatestDate(env, app);
      Truthy(date) && !date.Str?
    ensures v.Unparsable? <==>
      var date := LatestDate(env, app);
      date.Str? && date.s != [] && ParseScanDate(env.parsers, date.s).None?
    ensures v.Stale? || v.Retained? ==>
      var date := LatestDate(env, app);
      date.Str? && ParseScanDate(env.parsers, date.s) == Some(v.at)
    ensures v.Stale? ==> v.at < env.Cutoff()
    ensures v.Retained? ==> v.at >= env.Cutoff()
  {
    var id := ApiId(app);
    if !Truthy(id) then MissingId
    else
      var history := env.history(id);
      if history == [] then NoHistory
      else
        var date := Get(history[0], "evaluationDate");
        if !Truthy(date) then NoScanDate
        else if !date.Str? then DateNotText
        else match ParseScanDate(env.parsers, date.s)
          case None => Unparsable
          case Some(t) => if t < env.Cutoff() then Stale(t) else Retained(t)
  }

  /** An application is stale exactly when it has an id, a latest report with a parsable timestamp, and that instant is strictly before the cutoff. */
  lemma StaleIff(env: Env, app: Object)
    ensures Classify(env, app).Stale? <==>
      var id := ApiId(app);
      var history := env.history(id);
      && Truthy(id)
      && history != []
      && var date := Get(history[0], "evaluationDate");
      && date.Str? && date.s != []
      && var t := ParseScanDate(env.parsers, date.s);
      && t.Some? && t.value < env.Cutoff()
  {
  }

  /** Reports after the first one never influence the verdict. */
  lemma OnlyLatestReportConsulted(env: Env, env': Env, app: Object)
    requires env'.parsers == env.parsers && env'.cutoffDay == env.cutoffDay
    requires var id := ApiId(app);
      && (env.history(id) == [] <==> env'.history(id) == [])
      && (env.history(id) != [] ==> env.history(id)[0] == env'.history(id)[0])
    ensures Classify(env, app) == Classify(env', app)
  {
  }

  predicate Aborts(env: Env, app: Object)
  {
    Classify(env, app).DateNotText?
  }

  /** The first application at or after `from` whose timestamp makes the pass abort. */
  function FirstAbort(env: Env, apps: seq<Object>, from: nat): (r: Option<nat>)
    requires from <= |apps|
    decreases |apps| - from
    ensures r.Some? ==> from <= r.value < |apps| && Aborts(env, apps[r.value])
    ensures r.Some? ==> forall j :: from <= j < r.value ==> !Aborts(env, apps[j])
    ensures r.None? ==> forall j :: from <= j < |apps| ==> !Aborts(env, apps[j])
  {
    if from == |apps| then None
    else if Aborts(env, apps[from]) then Some(from)
    else FirstAbort(env, apps, from + 1)
  }

  /** How many applications the pass reaches: all of them, or up to and including the one that aborts it. */
  function Visited(env: Env, apps: seq<Object>): (n: nat)
    ensures n <= |apps|
  {
    match FirstAbort(env, apps, 0)
    case Some(k) => k + 1
    case None => |apps|
  }

  lemma FirstAbortAt(env: Env, apps: seq<Object>, i: nat)
    requires i < |apps| && Aborts(env, apps[i])
    requires forall j :: 0 <= j < i ==> !Aborts(env, apps[j])
    ensures FirstAbort(env, apps, 0) == Some(i) && Visited(env, apps) == i + 1
  {
  }

  lemma NoAbort(env: Env, apps: seq<Object>)
    requires forall j :: 0 <= j < |apps| ==> !Aborts(env, apps[j])
    ensures FirstAbort(env, apps, 0) == None && Visited(env, apps) == |apps|
  {
  }

  /** The candidate record the pass appends for the application at `idx`, if any. */
  function CandidateOf(env: Env, app: Object, idx: nat): seq<Candidate>
  {
    match Classify(env, app)
    case Stale(t) => [Candidate(DisplayName(app, idx), DisplayPublicId(app), ApiId(app), DayOf(t))]
    case _ => []
  }

  /** The pieces for the indices below `n`, concatenated in index order. */
  function Gather<T>(piece: nat -> seq<T>, n: nat): seq<T>
  {
    if n == 0 then [] else Gather(piece, n - 1) + piece(n - 1)
  }

  /** The candidate records contributed by index `i` of the application list. */
  function CandidateOfIndex(env: Env, apps: seq<Object>, i: nat): seq<Candidate>
  {
    if i < |apps| then CandidateOf(env, apps[i], i) else []
  }

  function CandidateAt(env: Env, apps: seq<Object>): nat -> seq<Candidate>
  {
    (i: nat) => CandidateOfIndex(env, apps, i)
  }

  function FetchAt(apps: seq<Object>): nat -> seq<Value>
  {
    (i: nat) => if i < |apps| && Truthy(ApiId(apps[i])) then [ApiId(apps[i])] else []
  }

  /** The candidates found among the first `n` applications. */
  function Candidates(env: Env, apps: seq<Object>, n: nat): seq<Candidate>
  {
    Gather(CandidateAt(env, apps), n)
  }

  /** The ids whose history the pass requests among the first `n` applications. */
  function Fetches(apps: seq<Object>, n: nat): seq<Value>
  {
    Gather(FetchAt(apps), n)
  }

  /** One more application adds its own candidate record, if any, at the end. */
  lemma CandidatesStep(env: Env, apps: seq<Object>, i: nat)
    requires i < |apps|
    ensures Candidates(env, apps, i + 1) == Candidates(env, apps, i) + CandidateOf(env, apps[i], i)
  {
    assert CandidateAt(env, apps)(i) == CandidateOf(env, apps[i], i);
  }

  /** One more application adds its own history request, if any, at the end. */
  lemma FetchesStep(apps: seq<Object>, i: nat)
    requires i < |apps|
    ensures Fetches(apps, i + 1) == Fetches(apps, i) + (if Truthy(ApiId(apps[i])) then [ApiId(apps[i])] else [])
  {
    assert FetchAt(apps)(i) == (if Truthy(ApiId(apps[i])) then [ApiId(apps[i])] else []);
  }

  /** The indices below `n` that satisfy `keep`, in increasing order. */
  function IndicesWhere(n: nat, keep: nat -> bool): seq<nat>
  {
    if n == 0 then [] else IndicesWhere(n - 1, keep) + (if keep(n - 1) then [n - 1] else [])
  }

  /** `IndicesWhere` lists every index below `n` that satisfies `keep`, and no other, in strictly increasing order. */
  lemma {:induction false} IndicesWhereExact(n: nat, keep: nat -> bool)
    ensures var r := IndicesWhere(n, keep);
      && (forall k :: 0 <= k < |r| ==> r[k] < n && keep(r[k]))
      && (forall k, l :: 0 <= k < l < |r| ==> r[k] < r[l])
      && (forall i :: 0 <= i < n && keep(i) ==> i in r)
  {
    if n > 0 {
      IndicesWhereExact(n - 1, keep);
      var prev := IndicesWhere(n - 1, keep);
      if keep(n - 1) {
        assert IndicesWhere(n, keep) == prev + [n - 1];
      } else {
        assert IndicesWhere(n, keep) == prev;
      }
    }
  }

  function NonEmptyAt<T>(piece: nat -> seq<T>): nat -> bool
  {
    (i: nat) => piece(i) != []
  }

  /** When each index contributes at most one piece, the gathered sequence lists them in the order of the contributing indices. */
  lemma {:induction false} GatherSingletons<T>(piece: nat -> seq<T>, n: nat)
    requires forall i: nat :: i < n ==> |piece(i)| <= 1
    ensures var idx := IndicesWhere(n, NonEmptyAt(piece));
      var all := Gather(piece, n);
      && |all| == |idx|
      && forall k :: 0 <= k < |idx| ==> piece(idx[k]) == [all[k]]
  {
    if n > 0 {
      GatherSingletons(piece, n - 1);
      var keep := NonEmptyAt(piece);
      var prev, all := IndicesWhere(n - 1, keep), Gather(piece, n - 1);
      assert Gather(piece, n) == all + piece(n - 1);
      if keep(n - 1) {
        assert IndicesWhere(n, keep) == prev + [n - 1];
        SingletonsExtended(piece, prev, all, n - 1);
      } else {
        assert IndicesWhere(n, keep) == prev;
      }
    }
  }

  lemma SingletonsExtended<T>(piece: nat -> seq<T>, idx: seq<nat>, all: seq<T>, i: nat)
    requires |piece(i)| == 1 && |idx| == |all|
    requires forall k :: 0 <= k < |idx| ==> piece(idx[k]) == [all[k]]
    ensures forall k :: 0 <= k < |idx| + 1 ==> piece((idx + [i])[k]) == [(all + piece(i))[k]]
  {
  }

  /** The indices of the stale applications. */
  function IsStaleAt(env: Env, apps: seq<Object>): nat -> bool
  {
    NonEmptyAt(CandidateAt(env, apps))
  }

  /** The indices of the applications with a usable id. */
  function HasIdAt(apps: seq<Object>): nat -> bool
  {
    NonEmptyAt(FetchAt(apps))
  }

  /** `c` is the record the pass keeps for the stale application at index `i`. */
  predicate RecordsApp(env: Env, apps: seq<Object>, i: nat, c: Candidate)
    requires i < |apps|
  {
    CandidateOf(env, apps[i], i) == [c]
  }

  /**
   * The candidates are exactly the stale applications, in input order, each
   * carrying that application's id, display name, public id and scan day.
   */
  lemma CandidatesAreStaleAppsInOrder(env: Env, apps: seq<Object>, n: nat)
    requires n <= |apps|
    ensures var idx := IndicesWhere(n, IsStaleAt(env, apps));
      var cs := Candidates(env, apps, n);
      && |cs| == |idx|
      && (forall i :: 0 <= i < n && Classify(env, apps[i]).Stale? ==> i in idx)
      && forall k :: 0 <= k < |idx| ==> idx[k] < n && RecordsApp(env, apps, idx[k], cs[k])
  {
    var piece := CandidateAt(env, apps);
    forall i: nat | i < n
      ensures |piece(i)| <= 1 && (piece(i) != [] <==> Classify(env, apps[i]).Stale?)
    {
    }
    GatherSingletons(piece, n);
    IndicesWhereExact(n, IsStaleAt(env, apps));
    var idx := IndicesWhere(n, IsStaleAt(env, apps));
    forall k | 0 <= k < |idx|
      ensures RecordsApp(env, apps, idx[k], Candidates(env, apps, n)[k])
    {
      assert piece(idx[k]) == [Candidates(env, apps, n)[k]];
    }
  }

  /** Every candidate has a usable id and was last scanned on a day before the cutoff day. */
  lemma CandidatesBeforeCutoff(env: Env, apps: seq<Object>, n: nat)
    requires n <= |apps|
    ensures forall c :: c in Candidates(env, apps, n) ==> Truthy(c.idForApis) && c.latestScanDay < env.cutoffDay
  {
    CandidatesAreStaleAppsInOrder(env, apps, n);
    var idx := IndicesWhere(n, IsStaleAt(env, apps));
    var cs := Candidates(env, apps, n);
    forall k | 0 <= k < |cs|
      ensures Truthy(cs[k].idForApis) && cs[k].latestScanDay < env.cutoffDay
    {
      assert RecordsApp(env, apps, idx[k], cs[k]);
      BeforeMidnightIffEarlierDay(Classify(env, apps[idx[k]]).at, env.cutoffDay);
    }
  }

  /** A history request is made for exactly the applications with a truthy id, in input order. */
  lemma FetchesAreAppsWithIds(apps: seq<Object>, n: nat)
    requires n <= |apps|
    ensures var idx := IndicesWhere(n, HasIdAt(apps));
      var fs := Fetches(apps, n);
      && |fs| == |idx|
      && (forall i :: 0 <= i < n && Truthy(ApiId(apps[i])) ==> i in idx)
      && forall k :: 0 <= k < |idx| ==> idx[k] < n && Truthy(ApiId(apps[idx[k]])) && fs[k] == ApiId(apps[idx[k]])
  {
    var piece := FetchAt(apps);
    GatherSingletons(piece, n);
    IndicesWhereExact(n, HasIdAt(apps));
    var idx := IndicesWhere(n, HasIdAt(apps));
    forall k | 0 <= k < |idx|
      ensures Fetches(apps, n)[k] == ApiId(apps[idx[k]])
    {
      assert piece(idx[k]) == [Fetches(apps, n)[k]];
    }
  }

  /**
   * The selection loop. It stops early only when an application's timestamp
   * makes the ISO parser raise TypeError; `aborted` then names it.
   */
  method SelectCandidates(env: Env, apps: seq<Object>)
    returns (candidates: seq<Candidate>, fetched: seq<Value>, aborted: Option<nat>)
    ensures aborted == FirstAbort(env, apps, 0)
    ensures candidates == Candidates(env, apps, Visited(env, apps))
    ensures fetched == Fetches(apps, Visited(env, apps))
  {
    candidates, fetched, aborted := [], [], None;
    for i := 0 to |apps|
      invariant aborted.None?
      invariant forall j :: 0 <= j < i ==> !Aborts(env, apps[j])
      invariant candidates == Candidates(env, apps, i)
      invariant fetched == Fetches(apps, i)
    {
      var app := apps[i];
      ghost var verdict := Classify(env, app);
      CandidatesStep(env, apps, i);
      FetchesStep(apps, i);
      var name := DisplayName(app, i);
      var publicId := DisplayPublicId(app);
      var id := ApiId(app);
      if !Truthy(id) {
        assert verdict == MissingId;
        continue;
      }
      fetched := fetched + [id];
      var history := env.history(id);
      if history == [] {
        assert verdict == NoHistory;
        continue;
      }
      var date := Get(history[0], "evaluationDate");
      if !Truthy(date) {
        assert verdict == NoScanDate;
        continue;
      }
      if !date.Str? {
        assert verdict == DateNotText;
        FirstAbortAt(env, apps, i);
        aborted := Some(i);
        break;
      }
      var scanned := ParseScanDate(env.parsers, date.s);
      if scanned.None? {
        assert verdict == Unparsable;
        continue;
      }
      if scanned.value < env.Cutoff() {
        assert verdict == Stale(scanned.value);
        candidates := candidates + [Candidate(name, publicId, id, DayOf(scanned.value))];
      } else {
        assert verdict == Retained(scanned.value);
      }
    }
    if aborted.None? {
      NoAbort(env, apps);
    }
  }
}
