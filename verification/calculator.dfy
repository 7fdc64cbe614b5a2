/**
 The calculator's main loop as a state machine. A session is the history
 of successful computations and whether the loop still runs. One
 iteration of the loop is a `Step` over an `Event`: the choice line and
 the operands the reader returned for it. `Run` drives the loop over raw
 input lines, reading operands lazily as `main` does.
 */
module Calculator {
  import opened Wrappers
  import opened Numbers
  import opened Arithmetic
  import opened Text
  import opened Reader

  /** A history record: both operands, the operation symbol and the result, kept as fields rather than formatted text. */
  datatype Entry = Entry(a: Num, symbol: char, b: Num, result: Num)

  datatype Session = Session(history: seq<Entry>, running: bool)

  /** The state `main` starts in: empty history, loop running. */
  const Start: Session := Session([], true)

  /**
   One iteration's input: the stripped choice text and the operands the
   reader returned (`None` for a cancellation, or for an operand never
   asked for).
   */
  datatype Event = Event(choice: string, a: Option<Num>, b: Option<Num>)

  /** What one iteration reports to the user. */
  datatype Outcome =
    | Exited
    | ShownHistory(entries: seq<Entry>)
    | InvalidOption
    | Cancelled
    | Computed(entry: Entry)
    | Failed(error: Error)

  datatype Transition = Transition(next: Session, out: Outcome)

  /**
   A history entry is right: its result is the exact value of its
   expression, in normal form.
   */
  predicate Correct(e: Entry) {
    && Exact(e.symbol, Value(e.a), Value(e.b)) == Some(Value(e.result))
    && Normal(e.result)
  }

  predicate AllCorrect(h: seq<Entry>) {
    forall i :: 0 <= i < |h| ==> Correct(h[i])
  }

  /** The body of the `while True` loop of `main`, from the test of the stripped choice to the end of the iteration. */
  function Step(s: Session, e: Event): (t: Transition)
    requires s.running
    ensures t.next.running <==> e.choice != "0"
    ensures t.out == Exited <==> e.choice == "0"
    ensures t.out.ShownHistory? <==> e.choice == "5"
    ensures t.out.ShownHistory? ==> t.out.entries == s.history
    ensures t.out == InvalidOption <==> e.choice !in {"0", "1", "2", "3", "4", "5"}
    ensures t.out == Cancelled <==> Operations(e.choice).Some? && (e.a.None? || e.b.None?)
    ensures t.out.Failed? <==>
              e.choice == "4" && e.a.Some? && e.b.Some? && Value(e.b.value) == 0.0
    ensures t.out.Computed? ==> t.next.history == s.history + [t.out.entry]
    ensures !t.out.Computed? ==> t.next.history == s.history
    ensures t.out.Computed? ==>
              && Operations(e.choice).Some?
              && e.a == Some(t.out.entry.a)
              && e.b == Some(t.out.entry.b)
              && t.out.entry.symbol == Operations(e.choice).value.symbol
              && Correct(t.out.entry)
  {
    if e.choice == "0" then Transition(s.(running := false), Exited)
    else if e.choice == "5" then Transition(s, ShownHistory(s.history))
    else
      match Operations(e.choice)
      case None => Transition(s, InvalidOption)
      case Some(op) =>
        if e.a.None? || e.b.None? then Transition(s, Cancelled)
        else
          var a, b := e.a.value, e.b.value;
          match Apply(op.kind, a, b)
          case Failure(err) => Transition(s, Failed(err))
          case Success(v) =>
            ApplyMeansSymbol(op.kind, a, b);
            var entry := Entry(a, op.symbol, b, Normalize(v));
            Transition(s.(history := s.history + [entry]), Computed(entry))
  }

  /** The entries of the successful computations a log reports, in order. */
  function Recorded(log: seq<Outcome>): seq<Entry> {
    if log == [] then []
    else if log[0].Computed? then [log[0].entry] + Recorded(log[1..])
    else Recorded(log[1..])
  }

  /** How many iterations of a log computed successfully. */
  function Successes(log: seq<Outcome>): nat {
    |set i | 0 <= i < |log| && log[i].Computed?|
  }

  /** The state a sequence of iterations ends in, and what each iteration reported. */
  datatype Trace = Trace(final: Session, log: seq<Outcome>)

  /**
   Runs the loop over a sequence of events until it exits or the events
   run out. History only ever grows, and what it gains is exactly the
   entries of the successful computations, in the order they happened;
   the loop stops only at a `0` choice.
   */
  function Steps(s: Session, events: seq<Event>): (r: Trace)
    ensures r.final.history == s.history + Recorded(r.log)
    decreases |events|
  {
    if !s.running || events == [] then Trace(s, [])
    else
      var t := Step(s, events[0]);
      var rest := Steps(t.next, events[1..]);
      var log := [t.out] + rest.log;
      assert log[1..] == rest.log;
      Trace(rest.final, log)
  }

  /** A running loop stops only by reporting `Exited`, and reports nothing after it. */
  lemma {:induction false} StepsStopOnlyAtExit(s: Session, events: seq<Event>)
    requires s.running
    ensures var r := Steps(s, events);
            && (r.final.running <==> Exited !in r.log)
            && (Exited in r.log ==> r.log[|r.log| - 1] == Exited)
    decreases |events|
  {
    if events != [] {
      var t := Step(s, events[0]);
      var rest := Steps(t.next, events[1..]);
      assert Steps(s, events) == Trace(rest.final, [t.out] + rest.log);
      if t.next.running {
        StepsStopOnlyAtExit(t.next, events[1..]);
      }
    }
  }

  /** Every entry the loop records is arithmetically right and in normal form. */
  lemma {:induction false} StepsKeepHistoryCorrect(s: Session, events: seq<Event>)
    requires AllCorrect(s.history)
    ensures AllCorrect(Steps(s, events).final.history)
    decreases |events|
  {
    if s.running && events != [] {
      var t := Step(s, events[0]);
      assert AllCorrect(t.next.history);
      StepsKeepHistoryCorrect(t.next, events[1..]);
    }
  }

  /**
   One iteration's worth of input lines: the choice line and, for an
   arithmetic choice, the operand lines `get_number` consumes. The second
   operand is read only when the first was not cancelled. `Stop` when the
   input runs out first.
   */
  datatype Next = Stop | Next(event: Event, rest: seq<string>)

  function NextEvent(parse: string -> Option<real>, lines: seq<string>): (r: Next)
    ensures r.Next? ==> |r.rest| < |lines| && r.rest == lines[|lines| - |r.rest|..]
  {
    if lines == [] then Stop
    else
      var choice := Trim(lines[0]);
      if choice == "0" || choice == "5" || Operations(choice).None? then
        Next(Event(choice, None, None), lines[1..])
      else
        Operands(Classifier(parse), choice, lines[1..])
  }

  /**
   The two `get_number` calls of an arithmetic choice, with `classify`
   deciding each line; the second is made only when the first returned a
   number.
   */
  function Operands(classify: string -> Token, choice: string, lines: seq<string>): (r: Next)
    ensures r.Next? ==> |r.rest| < |lines| && r.rest == lines[|lines| - |r.rest|..]
  {
    match ReadNumber(classify, lines)
    case EndOfInput => Stop
    case Read(None, rest) => Next(Event(choice, None, None), rest)
    case Read(Some(a), rest) =>
      match ReadNumber(classify, rest)
      case EndOfInput => Stop
      case Read(b, rest') => Next(Event(choice, Some(a), b), rest')
  }

  /** A cancelled first operand, after rejected lines, ends the operand reading there. */
  lemma OperandsCancelFirst(classify: string -> Token, choice: string, bad: seq<string>, l: string, rest: seq<string>)
    requires forall i :: 0 <= i < |bad| ==> classify(bad[i]).Invalid?
    requires classify(l).Cancel?
    ensures Operands(classify, choice, bad + [l] + rest) == Next(Event(choice, None, None), rest)
  {
    ReadSkipsInvalid(classify, bad, l, rest);
  }

  /** Two accepted operands, each after rejected lines, are the event's operands. */
  lemma OperandsReadsBoth(classify: string -> Token, choice: string, bad1: seq<string>, l1: string,
                          bad2: seq<string>, l2: string, rest: seq<string>)
    requires forall i :: 0 <= i < |bad1| ==> classify(bad1[i]).Invalid?
    requires classify(l1).Number?
    requires forall i :: 0 <= i < |bad2| ==> classify(bad2[i]).Invalid?
    requires !classify(l2).Invalid?
    ensures Operands(classify, choice, bad1 + [l1] + bad2 + [l2] + rest)
            == Next(Event(choice, Some(classify(l1).n), Answer(classify(l2))), rest)
  {
    var second := bad2 + [l2] + rest;
    assert bad1 + [l1] + bad2 + [l2] + rest == bad1 + [l1] + second;
    ReadSkipsInvalid(classify, bad1, l1, second);
    ReadSkipsInvalid(classify, bad2, l2, rest);
  }

  /** Splits input lines into the events of successive iterations; each event takes at least one line. */
  function Events(parse: string -> Option<real>, lines: seq<string>): (r: seq<Event>)
    ensures |r| <= |lines|
    decreases |lines|
  {
    match NextEvent(parse, lines)
    case Stop => []
    case Next(e, rest) => [e] + Events(parse, rest)
  }

  /**
   `main`: repeatedly reads one iteration's lines and steps the session,
   until the loop exits or the input runs out.
   */
  function Run(parse: string -> Option<real>, s: Session, lines: seq<string>): (r: Trace)
    ensures r.final.history == s.history + Recorded(r.log)
    ensures |r.log| <= |lines|
    decreases |lines|
  {
    if !s.running then Trace(s, [])
    else
      match NextEvent(parse, lines)
      case Stop => Trace(s, [])
      case Next(e, rest) =>
        var t := Step(s, e);
        var r := Run(parse, t.next, rest);
        StepRecords(s, e, r.log);
        Trace(r.final, [t.out] + r.log)
  }

  /** `0`, `5` and unknown choices take only their own line. */
  lemma NextEventOtherChoice(parse: string -> Option<real>, c: string, rest: seq<string>)
    requires Operations(Trim(c)).None?
    ensures NextEvent(parse, [c] + rest) == Next(Event(Trim(c), None, None), rest)
  {
    assert ([c] + rest)[1..] == rest;
  }

  /**
   An arithmetic choice whose first operand is cancelled, after any number
   of rejected lines, ends there: the second operand is not read.
   */
  lemma NextEventCancelFirst(parse: string -> Option<real>, c: string, bad: seq<string>, l: string, rest: seq<string>)
    requires Operations(Trim(c)).Some?
    requires forall i :: 0 <= i < |bad| ==> Classify(parse, bad[i]).Invalid?
    requires Classify(parse, l).Cancel?
    ensures NextEvent(parse, [c] + bad + [l] + rest) == Next(Event(Trim(c), None, None), rest)
  {
    var tail := bad + [l] + rest;
    assert [c] + bad + [l] + rest == [c] + tail;
    NextEventArithmetic(parse, c, tail);
    OperandsCancelFirst(Classifier(parse), Trim(c), bad, l, rest);
  }

  /**
   An arithmetic choice reads the first operand, skipping rejected lines,
   then the second the same way; the lines after the second operand's
   deciding line are left for the next iteration.
   */
  lemma NextEventReadsBoth(parse: string -> Option<real>, c: string, bad1: seq<string>, l1: string,
                           bad2: seq<string>, l2: string, rest: seq<string>)
    requires Operations(Trim(c)).Some?
    requires forall i :: 0 <= i < |bad1| ==> Classify(parse, bad1[i]).Invalid?
    requires Classify(parse, l1).Number?
    requires forall i :: 0 <= i < |bad2| ==> Classify(parse, bad2[i]).Invalid?
    requires !Classify(parse, l2).Invalid?
    ensures NextEvent(parse, [c] + bad1 + [l1] + bad2 + [l2] + rest)
            == Next(Event(Trim(c), Some(Classify(parse, l1).n), Answer(Classify(parse, l2))), rest)
  {
    var tail := bad1 + [l1] + bad2 + [l2] + rest;
    assert [c] + bad1 + [l1] + bad2 + [l2] + rest == [c] + tail;
    NextEventArithmetic(parse, c, tail);
    OperandsReadsBoth(Classifier(parse), Trim(c), bad1, l1, bad2, l2, rest);
  }

  /** After an arithmetic choice, the iteration is the operand reading of the lines that follow. */
  lemma NextEventArithmetic(parse: string -> Option<real>, c: string, tail: seq<string>)
    requires Operations(Trim(c)).Some?
    ensures NextEvent(parse, [c] + tail) == Operands(Classifier(parse), Trim(c), tail)
  {
    assert ([c] + tail)[1..] == tail;
  }

  /** One step followed by a log records what the step appended, then what the log records. */
  lemma StepRecords(s: Session, e: Event, log: seq<Outcome>)
    requires s.running
    ensures s.history + Recorded([Step(s, e).out] + log) == Step(s, e).next.history + Recorded(log)
  {
    var l := [Step(s, e).out] + log;
    assert l[1..] == log;
  }

  /** Reading lazily as the loop goes gives the same run as splitting the input into events first. */
  lemma {:induction false} RunIsSteps(parse: string -> Option<real>, s: Session, lines: seq<string>)
    ensures Run(parse, s, lines) == Steps(s, Events(parse, lines))
    decreases |lines|
  {
    if s.running {
      match NextEvent(parse, lines)
      case Stop =>
      case Next(e, rest) =>
        RunIsSteps(parse, Step(s, e).next, rest);
        assert Events(parse, lines)[1..] == Events(parse, rest);
    }
  }

  /** `Recorded` distributes over concatenation of logs. */
  lemma {:induction false} RecordedAppend(x: seq<Outcome>, y: seq<Outcome>)
    ensures Recorded(x + y) == Recorded(x) + Recorded(y)
    decreases |x|
  {
    if x != [] {
      assert (x + y)[1..] == x[1..] + y;
      RecordedAppend(x[1..], y);
    } else {
      assert x + y == y;
    }
  }

  lemma {:induction false} RecordedCountsSuccesses(log: seq<Outcome>)
    ensures |Recorded(log)| == Successes(log)
    decreases |log|
  {
    if log != [] {
      var init, last := log[..|log| - 1], log[|log| - 1];
      assert log == init + [last];
      RecordedCountsSuccesses(init);
      RecordedAppend(init, [last]);
      assert [last][1..] == [];
      var before := set i | 0 <= i < |init| && init[i].Computed?;
      var all := set i | 0 <= i < |log| && log[i].Computed?;
      if last.Computed? {
        assert all == before + {|init|};
      } else {
        assert all == before;
      }
    }
  }

  /**
   Over a whole run from the start state, history is exactly the entries
   of the successful computations in the order they happened, its length
   is their number, and every entry is arithmetically right.
   */
  lemma RunHistory(parse: string -> Option<real>, lines: seq<string>)
    ensures var r := Run(parse, Start, lines);
            && r.final.history == Recorded(r.log)
            && |r.final.history| == Successes(r.log)
            && AllCorrect(r.final.history)
  {
    var events := Events(parse, lines);
    RunIsSteps(parse, Start, lines);
    StepsKeepHistoryCorrect(Start, events);
    RecordedCountsSuccesses(Steps(Start, events).log);
  }

  /** A whole run has stopped exactly when it reported a `0` choice, and that was its last report. */
  lemma RunStopsOnlyAtExit(parse: string -> Option<real>, lines: seq<string>)
    ensures var r := Run(parse, Start, lines);
            && (r.final.running <==> Exited !in r.log)
            && (Exited in r.log ==> r.log[|r.log| - 1] == Exited)
  {
    RunIsSteps(parse, Start, lines);
    StepsStopOnlyAtExit(Start, Events(parse, lines));
  }
}
