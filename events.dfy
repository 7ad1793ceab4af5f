/** What the handlers do to the outside world, recorded as values: each call
    into the chat platform, each line printed to the console, and the hand-over
    to command processing. The outcome of a platform call is an input. */
module Events {
  import opened Wrappers

  /** How one awaited platform call ended: normally, or by raising an
      exception whose text is `error`. */
  datatype Outcome = Ok | Fail(error: string)

  /** The console lines main.py prints from its handlers. */
  datatype LogLine =
    | TimedOut(displayName: string)        // main.py:80
    | TimeoutFailed(error: string)         // main.py:82
    | GreetingSent(channelName: string)    // main.py:92
    | GreetingFailed(error: string)        // main.py:94

  datatype Effect =
    | SetTimeout(member: nat, until: int, reason: string)   // member.timeout(...)
    | DeleteMessage(message: nat)                          // message.delete()
    | SendMessage(channel: nat, text: string)              // channel.send(...)
    | ProcessCommands(message: nat)                        // bot.process_commands(...)
    | Log(line: LogLine)                                   // print(...)
    | HandlerRaised                                        // an exception escapes the handler

  /** The calls of `plan` that a single `try` block attempts when the i-th call
      ends with `results[i]`: each call in turn, stopping right after the first
      one that raises. */
  function Attempted(plan: seq<Effect>, results: seq<Outcome>): (r: seq<Effect>)
    requires |plan| == |results|
    ensures |r| <= |plan| && r == plan[..|r|]
    ensures plan != [] ==> r != []
  {
    if plan == [] then []
    else if results[0].Fail? then [plan[0]]
    else [plan[0]] + Attempted(plan[1..], results[1..])
  }

  /** The error of the first call that raised, if any did. */
  function FirstError(results: seq<Outcome>): Option<string> {
    if results == [] then None
    else if results[0].Fail? then Some(results[0].error)
    else FirstError(results[1..])
  }

  /** Every attempted call but the last one succeeded; when none of the calls
      fails all of them are attempted; otherwise the last attempted call is the
      one that raised the first error. */
  lemma {:induction false} AttemptedStopsAtFirstFailure(plan: seq<Effect>, results: seq<Outcome>)
    requires |plan| == |results|
    ensures var r := Attempted(plan, results);
      && (forall i :: 0 <= i < |r| - 1 ==> results[i].Ok?)
      && (FirstError(results).None? ==> r == plan)
      && (FirstError(results).Some? ==> r != [] && results[|r| - 1] == Fail(FirstError(results).value))
  {
    if plan != [] && results[0].Ok? {
      AttemptedStopsAtFirstFailure(plan[1..], results[1..]);
      var r := Attempted(plan, results);
      assert r == [plan[0]] + Attempted(plan[1..], results[1..]);
      forall i | 0 <= i < |r| - 1
        ensures results[i].Ok?
      {
        if i > 0 {
          assert results[i] == results[1..][i - 1];
        }
      }
    }
  }

  /** Attempted calls never depend on the outcomes of calls after the first
      failure. */
  lemma {:induction false} AttemptedIgnoresLaterOutcomes(plan: seq<Effect>, a: seq<Outcome>, b: seq<Outcome>, k: nat)
    requires |plan| == |a| == |b| && k < |a|
    requires a[k].Fail? && a[..k + 1] == b[..k + 1]
    ensures Attempted(plan, a) == Attempted(plan, b)
  {
    if k > 0 {
      assert a[0] == a[..k + 1][0] && b[0] == b[..k + 1][0];
      assert a[1..][..k] == a[..k + 1][1..] && b[1..][..k] == b[..k + 1][1..];
      AttemptedIgnoresLaterOutcomes(plan[1..], a[1..], b[1..], k - 1);
    }
  }

  /** The first error among three outcomes, read left to right. */
  lemma FirstErrorOfThree(t: Outcome, d: Outcome, s: Outcome)
    ensures FirstError([t, d, s]) ==
      if t.Fail? then Some(t.error) else if d.Fail? then Some(d.error) else if s.Fail? then Some(s.error) else None
  {
    assert [t, d, s][1..] == [d, s] && [d, s][1..] == [s] && [s][1..] == [];
    assert FirstError([s]) == if s.Fail? then Some(s.error) else FirstError([]);
    assert FirstError([d, s]) == if d.Fail? then Some(d.error) else FirstError([s]);
  }

  /** The calls a `try` block over three calls attempts. */
  lemma AttemptedOfThree(a: Effect, b: Effect, c: Effect, t: Outcome, d: Outcome, s: Outcome)
    ensures Attempted([a, b, c], [t, d, s]) ==
      if t.Fail? then [a] else if d.Fail? then [a, b] else [a, b, c]
  {
  }
}
