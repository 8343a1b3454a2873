/**
 * The cleanup run as a whole: parse the cutoff, list the applications, select
 * the stale ones, ask the operator, and delete on an explicit "yes".
 * The server is an oracle; the requests the run makes and the prompt it
 * shows are returned as a trace of events.
 */
module Cleanup {
  import opened Wrappers
  import opened Json
  import opened ScanDate
  import opened Selection
  import opened Deletion
  import PyStr

  /** The server at the configured URL, as seen with the configured credentials. */
  datatype Server = Server(
    /** the `applications` list of the list endpoint (empty when the request fails) */
    applications: seq<Object>,
    /** the report list for an internal id (empty when the request fails) */
    history: Value -> seq<Object>,
    /** the answer to each delete request */
    accepts: Reply)

  /** What the run observably does, in order. */
  datatype Event =
    | ListApplications
    | FetchHistory(id: Value)
    | AskConfirmation(count: nat)
    | DeleteApplication(id: Value)       // a delete request attempted (it may not reach the server)

  /** How the run ends. */
  datatype Outcome =
    | InvalidCutoff                      // the cutoff date does not parse: nothing is requested
    | NoApplications                     // the list is empty or could not be fetched
    | Crashed(at: nat)                   // a non-text timestamp raised an uncaught TypeError
    | NothingToDelete                    // no application is stale
    | Cancelled(candidates: seq<Candidate>)
    | Completed(candidates: seq<Candidate>, deleted: nat, failed: nat)
    | DeleteCrashed(candidates: seq<Candidate>, attempted: seq<Value>)  // a delete request raised: the run ends after attempting it

  /**
   * The confirmation gate, `reply.strip().lower() == 'yes'`: the reply is
   * accepted exactly when, once stripped, it is "yes" in any mix of letter case.
   */
  function Confirmed(reply: string): (yes: bool)
    ensures yes <==>
      var t := PyStr.Strip(reply);
      |t| == 3 && t[0] in "yY" && t[1] in "eE" && t[2] in "sS"
  {
    PyStr.Lower(PyStr.Strip(reply)) == "yes"
  }

  /** Whitespace around the word does not matter. */
  lemma {:induction false} StripPadded(pre: string, word: string, post: string)
    requires PyStr.AllSpace(pre) && PyStr.AllSpace(post)
    requires word != [] && !PyStr.IsSpace(word[0]) && !PyStr.IsSpace(word[|word| - 1])
    ensures PyStr.Strip(pre + word + post) == word
  {
    var rest := word + post;
    var s := pre + rest;
    assert s == pre + word + post;
    LeadingOfPadded(pre, rest);
    assert s[|pre|..] == rest;
    TrailingOfPadded(word, post);
    assert rest[..|rest| - |post|] == word;
  }

  lemma {:induction false} LeadingOfPadded(pre: string, rest: string)
    requires PyStr.AllSpace(pre) && rest != [] && !PyStr.IsSpace(rest[0])
    ensures PyStr.LeadingSpaces(pre + rest) == |pre|
  {
    if pre != [] {
      assert (pre + rest)[1..] == pre[1..] + rest;
      LeadingOfPadded(pre[1..], rest);
    } else {
      assert pre + rest == rest;
    }
  }

  lemma {:induction false} TrailingOfPadded(rest: string, post: string)
    requires PyStr.AllSpace(post) && rest != [] && !PyStr.IsSpace(rest[|rest| - 1])
    ensures PyStr.TrailingSpaces(rest + post) == |post|
  {
    if post != [] {
      var init := post[..|post| - 1];
      assert (rest + post)[..|rest + post| - 1] == rest + init;
      TrailingOfPadded(rest, init);
    } else {
      assert rest + post == rest;
    }
  }

  /** Any capitalisation of "yes" with surrounding whitespace confirms the deletion. */
  lemma PaddedYesConfirms(pre: string, word: string, post: string)
    requires PyStr.AllSpace(pre) && PyStr.AllSpace(post)
    requires |word| == 3 && word[0] in "yY" && word[1] in "eE" && word[2] in "sS"
    ensures Confirmed(pre + word + post)
  {
    StripPadded(pre, word, post);
  }

  function FetchEvents(ids: seq<Value>): seq<Event>
  {
    seq(|ids|, k requires 0 <= k < |ids| => FetchHistory(ids[k]))
  }

  function DeleteEvents(ids: seq<Value>): seq<Event>
  {
    seq(|ids|, k requires 0 <= k < |ids| => DeleteApplication(ids[k]))
  }

  /** The outcomes reached after the prompt. */
  predicate Prompted(outcome: Outcome)
  {
    outcome.Cancelled? || outcome.Completed? || outcome.DeleteCrashed?
  }

  /** The prompt, shown only when there is something to confirm. */
  function PromptEvents(outcome: Outcome): seq<Event>
  {
    if Prompted(outcome) then [AskConfirmation(|outcome.candidates|)] else []
  }

  /** The delete requests, made only after a confirmation. */
  function DeletedIds(outcome: Outcome): seq<Value>
  {
    match outcome
    case Completed(candidates, _, _) => IdsOf(candidates)
    case DeleteCrashed(_, attempted) => attempted
    case _ => []
  }

  /** Prompts and delete requests appear in a trace only on the outcomes that allow them. */
  lemma TraceShape(fetched: seq<Value>, outcome: Outcome)
    ensures var log := [ListApplications] + FetchEvents(fetched) + PromptEvents(outcome) + DeleteEvents(DeletedIds(outcome));
      && (forall k :: 0 <= k < |log| && log[k].DeleteApplication? ==> outcome.Completed? || outcome.DeleteCrashed?)
      && (forall k :: 0 <= k < |log| && log[k].AskConfirmation? ==> Prompted(outcome))
  {
  }

  /**
   * One run of the script with the given cutoff date, parsers, server and
   * operator reply (read only if the run gets as far as asking).
   */
  method Run(cutoffDate: string, parsers: Parsers, server: Server, reply: string)
    returns (outcome: Outcome, log: seq<Event>)
    ensures outcome.InvalidCutoff? <==> parsers.calendarDate(cutoffDate).None?
    ensures outcome.InvalidCutoff? ==> log == []
    ensures !outcome.InvalidCutoff? ==>
      var env := Env(server.history, parsers, parsers.calendarDate(cutoffDate).value);
      var apps := server.applications;
      && (outcome.NoApplications? <==> apps == [])
      && (outcome.Crashed? <==> apps != [] && FirstAbort(env, apps, 0).Some?)
      && (outcome.Crashed? ==> outcome.at == FirstAbort(env, apps, 0).value)
      && (outcome.NothingToDelete? <==>
            apps != [] && FirstAbort(env, apps, 0).None? && Candidates(env, apps, |apps|) == [])
      && (Prompted(outcome) ==>
            FirstAbort(env, apps, 0).None? && outcome.candidates == Candidates(env, apps, |apps|)
            && outcome.candidates != [])
      && log == [ListApplications] + FetchEvents(Fetches(apps, Visited(env, apps)))
                + PromptEvents(outcome) + DeleteEvents(DeletedIds(outcome))
    ensures forall k :: 0 <= k < |log| && log[k].DeleteApplication? ==>
      (outcome.Completed? || outcome.DeleteCrashed?) && Confirmed(reply)
    ensures forall k :: 0 <= k < |log| && log[k].AskConfirmation? ==> Prompted(outcome)
    ensures outcome.Cancelled? ==> !Confirmed(reply)
    ensures outcome.Completed? || outcome.DeleteCrashed? ==> Confirmed(reply)
    ensures outcome.Completed? ==>
      var ids := IdsOf(outcome.candidates);
      && FirstRaised(server.accepts, ids, 0).None?
      && outcome.deleted == Successes(server.accepts, ids, |ids|)
      && outcome.failed == |Failures(server.accepts, ids, |ids|)|
      && outcome.deleted + outcome.failed == |outcome.candidates|
    ensures outcome.DeleteCrashed? ==>
      var ids := IdsOf(outcome.candidates);
      var raised := FirstRaised(server.accepts, ids, 0);
      raised.Some? && outcome.attempted == ids[..raised.value + 1]
  {
    var cutoff := CutoffInstant(parsers, cutoffDate);
    if cutoff.None? {
      return InvalidCutoff, [];
    }
    var env := Env(server.history, parsers, DayOf(cutoff.value));
    log := [ListApplications];
    var apps := server.applications;
    ghost var requested: seq<Value> := [];
    if apps == [] {
      outcome := NoApplications;
      assert Visited(env, apps) == 0;
    } else {
      var candidates, fetched, aborted := SelectCandidates(env, apps);
      log := log + FetchEvents(fetched);
      requested := fetched;
      if aborted.Some? {
        outcome := Crashed(aborted.value);
      } else if candidates == [] {
        outcome := NothingToDelete;
      } else {
        log := log + [AskConfirmation(|candidates|)];
        if !Confirmed(reply) {
          outcome := Cancelled(candidates);
        } else {
          var deleted, failed, attempted, raised := DeleteAll(server.accepts, candidates);
          log := log + DeleteEvents(attempted);
          if raised.Some? {
            outcome := DeleteCrashed(candidates, attempted);
          } else {
            outcome := Completed(candidates, deleted, failed);
          }
        }
      }
    }
    assert log == [ListApplications] + FetchEvents(requested) + PromptEvents(outcome) + DeleteEvents(DeletedIds(outcome));
    TraceShape(requested, outcome);
  }
}
