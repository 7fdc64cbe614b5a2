/** Whole sessions on concrete input, as a user would type them. */
module Scenarios {
  import opened Wrappers
  import opened Numbers
  import opened Arithmetic
  import opened Text
  import opened Reader
  import opened Calculator

  /** What `float()` returns for the few literals the sessions below type; anything else raises. */
  function Literal(t: string): Option<real> {
    if t == "0" then Some(0.0)
    else if t == "2" then Some(2.0)
    else if t == "3" then Some(3.0)
    else if t == "4" then Some(4.0)
    else if t == "5" then Some(5.0)
    else if t == "2.5" then Some(2.5)
    else None
  }

  /** A literal without surrounding white space is its own stripped form. */
  lemma TrimOf(t: string)
    requires Stripped(t)
    ensures Trim(t) == t
  {
  }

  /** Each literal above is a number line: no white space to strip, and not a cancellation. */
  lemma LiteralIsNumber(t: string)
    requires Literal(t).Some?
    ensures Classify(Literal, t) == Number(Normalize(Frac(Literal(t).value)))
  {
    TrimOf(t);
    assert Lower(t) == t;
  }

  /** A numeric literal is read as its normalised value, consuming only its own line. */
  lemma ReadsLiteral(t: string, rest: seq<string>)
    requires Literal(t).Some?
    ensures ReadNumber(Classifier(Literal), [t] + rest) == Read(Some(Normalize(Frac(Literal(t).value))), rest)
  {
    LiteralIsNumber(t);
    assert ([t] + rest)[0] == t && ([t] + rest)[1..] == rest;
  }

  /** An arithmetic choice followed by two numeric literals makes one event that uses all three lines. */
  lemma ComputeEvent(c: string, x: string, y: string)
    requires Stripped(c) && Operations(c).Some?
    requires Literal(x).Some? && Literal(y).Some?
    ensures NextEvent(Literal, [c, x, y]) ==
            Next(Event(c, Some(Normalize(Frac(Literal(x).value))), Some(Normalize(Frac(Literal(y).value)))), [])
  {
    TrimOf(c);
    ReadsLiteral(y, []);
    ReadsLiteral(x, [y]);
    assert [c, x, y][1..] == [x] + [y];
    assert [y] + [] == [y];
  }

  /** Input that holds exactly one iteration runs exactly that step. */
  lemma RunOneEvent(parse: string -> Option<real>, s: Session, lines: seq<string>, e: Event)
    requires s.running
    requires NextEvent(parse, lines) == Next(e, [])
    ensures Run(parse, s, lines) == Trace(Step(s, e).next, [Step(s, e).out])
  {
    var t := Step(s, e);
    assert Run(parse, t.next, []) == Trace(t.next, []);
  }

  /** `1`, `2`, `3` computes `2 + 3 = 5` and records it. */
  lemma AddTwoThree()
    ensures Run(Literal, Start, ["1", "2", "3"]) ==
            Trace(Session([Entry(Int(2), '+', Int(3), Int(5))], true), [Computed(Entry(Int(2), '+', Int(3), Int(5)))])
  {
    ComputeEvent("1", "2", "3");
    var e := Event("1", Some(Int(2)), Some(Int(3)));
    RunOneEvent(Literal, Start, ["1", "2", "3"], e);
    assert Step(Start, e).out == Computed(Entry(Int(2), '+', Int(3), Int(5)));
  }


  /** `4`, `5`, `0` reports division by zero and records nothing. */
  lemma DivideByZero()
    ensures Run(Literal, Start, ["4", "5", "0"]) == Trace(Start, [Failed(DivisionByZero)])
  {
    ComputeEvent("4", "5", "0");
    var e := Event("4", Some(Int(5)), Some(Int(0)));
    RunOneEvent(Literal, Start, ["4", "5", "0"], e);
    assert Step(Start, e) == Transition(Start, Failed(DivisionByZero));
  }


  /** `5` on a fresh session shows an empty history ("No history yet."). */
  lemma EmptyHistory()
    ensures Run(Literal, Start, ["5"]) == Trace(Start, [ShownHistory([])])
  {
    TrimOf("5");
    assert NextEvent(Literal, ["5"]) == Next(Event("5", None, None), []);
  }

  /** `3`, `2.5`, `4` computes `2.5 * 4 = 10`: the float result `10.0` is recorded as the int `10`. */
  lemma MultiplyNormalises()
    ensures Run(Literal, Start, ["3", "2.5", "4"]).final.history == [Entry(Frac(2.5), '*', Int(4), Int(10))]
  {
    assert !IsWhole(2.5);
    ComputeEvent("3", "2.5", "4");
    var e := Event("3", Some(Frac(2.5)), Some(Int(4)));
    RunOneEvent(Literal, Start, ["3", "2.5", "4"], e);
    assert IsWhole(10.0);
    assert Step(Start, e).out == Computed(Entry(Frac(2.5), '*', Int(4), Int(10)));
  }


  /**
   ` 2 `, then a line `float()` rejects, then ` QuIt `: the reader retries,
   the cancellation (in any case, with white space) returns to the menu,
   and nothing is computed.
   */
  lemma CancelAfterRetry()
    ensures Run(Literal, Start, [" 2 ", "abc", " QuIt "]) == Trace(Start, [Cancelled])
  {
    RetryThenCancel();
    TrimPadded(" ", "2", " ");
    assert " " + "2" + " " == " 2 ";
    assert [" 2 ", "abc", " QuIt "][1..] == ["abc", " QuIt "];
    RunOneEvent(Literal, Start, [" 2 ", "abc", " QuIt "], Event("2", None, None));
  }

  /** The reader skips `abc`, which `float()` rejects, and then cancels on ` QuIt `. */
  lemma RetryThenCancel()
    ensures ReadNumber(Classifier(Literal), ["abc", " QuIt "]) == Read(None, [])
  {
    PaddedCancels();
    TrimOf("abc");
    assert Lower("abc") == "abc";
    assert Classifier(Literal)("abc") == Invalid;
    assert Classifier(Literal)(" QuIt ") == Cancel;
    ReadSkipsInvalid(Classifier(Literal), ["abc"], " QuIt ", []);
    assert ["abc"] + [" QuIt "] + [] == ["abc", " QuIt "];
  }

  /** ` QuIt ` cancels: white space is stripped and letter case ignored. */
  lemma PaddedCancels()
    ensures IsCancel(" QuIt ")
  {
    TrimPadded(" ", "QuIt", " ");
    assert " " + "QuIt" + " " == " QuIt ";
    assert Lower("QuIt") == "quit";
  }

  /** `0` exits at once: the lines after it are never read. */
  lemma ExitStops()
    ensures Run(Literal, Start, ["0", "1", "2", "3"]) == Trace(Session([], false), [Exited])
  {
    TrimOf("0");
    assert NextEvent(Literal, ["0", "1", "2", "3"]) == Next(Event("0", None, None), ["1", "2", "3"]);
  }
}
