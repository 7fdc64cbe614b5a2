/**
 The operand reader `get_number`: it reads lines until one is a
 cancellation token or parses as a number. Python's `float()` is not
 modelled; it is the parameter `parse`, applied to the stripped text, which
 yields the real the text denotes or `None` where `float()` raises
 `ValueError`.
 */
module Reader {
  import opened Wrappers
  import opened Numbers
  import opened Text

  /** `c` is the character `w` itself or, when `w` is a lower-case ASCII letter, that letter in upper case. */
  predicate SameIgnoringCase(c: char, w: char) {
    c == w || ('a' <= w <= 'z' && c as int == w as int - 32)
  }

  /** `t` spells the lower-case word `w`, each letter in either case. */
  predicate SpellsIgnoringCase(t: string, w: string) {
    |t| == |w| && forall i :: 0 <= i < |t| ==> SameIgnoringCase(t[i], w[i])
  }

  lemma LowerIsWord(t: string, w: string)
    requires forall i :: 0 <= i < |w| ==> 'a' <= w[i] <= 'z'
    ensures Lower(t) == w <==> SpellsIgnoringCase(t, w)
  {
  }

  /**
   The cancellation test: the stripped, lower-cased line is `q` or
   `quit`. So a line cancels exactly when, stripped, it spells `q` or
   `quit` in any mixture of upper- and lower-case letters.
   */
  predicate IsCancel(line: string): (b: bool)
    ensures b <==> SpellsIgnoringCase(Trim(line), "q") || SpellsIgnoringCase(Trim(line), "quit")
  {
    LowerIsWord(Trim(line), "q");
    LowerIsWord(Trim(line), "quit");
    Lower(Trim(line)) in {"q", "quit"}
  }

  /**
   The number a successful parse yields: a whole value is returned as an
   `int`, any other value as the `float` itself.
   */
  function FromParsed(x: real): (r: Num)
    ensures Value(r) == x
    ensures r.Int? <==> IsWhole(x)
  {
    Normalize(Frac(x))
  }

  /** What the reader makes of one line. */
  datatype Token = Cancel | Number(n: Num) | Invalid

  /**
   One pass of the `get_number` loop body: a cancellation token is checked
   first; otherwise the stripped text is parsed, and a number is returned
   normalised, while a parse failure means "try again".
   */
  function Classify(parse: string -> Option<real>, line: string): (t: Token)
    ensures t.Cancel? <==> IsCancel(line)
    ensures t.Number? <==> !IsCancel(line) && parse(Trim(line)).Some?
    ensures t.Number? ==> Value(t.n) == parse(Trim(line)).value && Normal(t.n)
  {
    if IsCancel(line) then Cancel
    else
      match parse(Trim(line))
      case None => Invalid
      case Some(x) => Number(FromParsed(x))
  }

  /** `Classify` as a function value, the form the reading loop takes it in. */
  function Classifier(parse: string -> Option<real>): string -> Token {
    line => Classify(parse, line)
  }

  /** What `get_number` returns for a line it accepts: `None` on cancellation, else the number. */
  function Answer(t: Token): Option<Num> {
    if t.Number? then Some(t.n) else None
  }

  /** The result of reading one operand: the input ran out, or a value (or cancellation) and the unread lines. */
  datatype ReadResult = EndOfInput | Read(value: Option<Num>, rest: seq<string>)

  /**
   The `while True` loop of `get_number`, over the classification of each
   line: skips invalid lines and stops at the first line that cancels or
   holds a number, leaving the lines after it unread.
   */
  function ReadNumber(classify: string -> Token, lines: seq<string>): (r: ReadResult)
    ensures r.Read? ==> |r.rest| < |lines| && r.rest == lines[|lines| - |r.rest|..]
    decreases |lines|
  {
    if |lines| == 0 then EndOfInput
    else if classify(lines[0]).Invalid? then
      var r := ReadNumber(classify, lines[1..]);
      assert r.Read? ==> lines[1..][|lines| - 1 - |r.rest|..] == lines[|lines| - |r.rest|..];
      r
    else Read(Answer(classify(lines[0])), lines[1..])
  }

  /**
   The input runs out exactly when every line is invalid; otherwise the
   reader stops at the first line that is not, and returns what that line
   holds.
   */
  lemma {:induction false} ReadNumberStopsAtFirstAccepted(classify: string -> Token, lines: seq<string>)
    ensures ReadNumber(classify, lines).EndOfInput? <==> forall i :: 0 <= i < |lines| ==> classify(lines[i]).Invalid?
    ensures ReadNumber(classify, lines).Read? ==>
              var k := |lines| - |ReadNumber(classify, lines).rest| - 1;
              && (forall i :: 0 <= i < k ==> classify(lines[i]).Invalid?)
              && !classify(lines[k]).Invalid?
              && ReadNumber(classify, lines).value == Answer(classify(lines[k]))
  {
    ReadNumberEnds(classify, lines);
    ReadNumberDecides(classify, lines);
  }

  /** The input runs out exactly when every line is invalid. */
  lemma {:induction false} ReadNumberEnds(classify: string -> Token, lines: seq<string>)
    ensures ReadNumber(classify, lines).EndOfInput? <==> forall i :: 0 <= i < |lines| ==> classify(lines[i]).Invalid?
    decreases |lines|
  {
    if |lines| > 0 && classify(lines[0]).Invalid? {
      var tail := lines[1..];
      ReadNumberEnds(classify, tail);
      assert ReadNumber(classify, lines) == ReadNumber(classify, tail);
      assert forall i :: 1 <= i < |lines| ==> lines[i] == tail[i - 1];
    } else if |lines| > 0 {
      assert ReadNumber(classify, lines) == Read(Answer(classify(lines[0])), lines[1..]);
    }
  }

  /** A read stops at the first line that is not invalid and returns what that line holds. */
  lemma {:induction false} ReadNumberDecides(classify: string -> Token, lines: seq<string>)
    ensures ReadNumber(classify, lines).Read? ==>
              var k := |lines| - |ReadNumber(classify, lines).rest| - 1;
              && (forall i :: 0 <= i < k ==> classify(lines[i]).Invalid?)
              && !classify(lines[k]).Invalid?
              && ReadNumber(classify, lines).value == Answer(classify(lines[k]))
    decreases |lines|
  {
    if |lines| > 0 && classify(lines[0]).Invalid? {
      var tail := lines[1..];
      ReadNumberDecides(classify, tail);
      assert ReadNumber(classify, lines) == ReadNumber(classify, tail);
      assert forall i :: 1 <= i < |lines| ==> lines[i] == tail[i - 1];
    } else if |lines| > 0 {
      assert ReadNumber(classify, lines) == Read(Answer(classify(lines[0])), lines[1..]);
    }
  }

  /**
   Invalid lines in front of an accepted one change nothing: the reader
   returns what that line holds and leaves exactly the lines after it.
   */
  lemma {:induction false} ReadSkipsInvalid(classify: string -> Token, bad: seq<string>, line: string, rest: seq<string>)
    requires forall i :: 0 <= i < |bad| ==> classify(bad[i]).Invalid?
    requires !classify(line).Invalid?
    ensures ReadNumber(classify, bad + [line] + rest) == Read(Answer(classify(line)), rest)
    decreases |bad|
  {
    var lines := bad + [line] + rest;
    if bad == [] {
      assert lines == [line] + rest;
      assert lines[1..] == rest;
    } else {
      assert lines[0] == bad[0];
      assert lines[1..] == bad[1..] + [line] + rest;
      ReadSkipsInvalid(classify, bad[1..], line, rest);
    }
  }
}
