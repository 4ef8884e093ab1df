/**
 * The part of a standard input stream the map reader relies on, with its
 * exception mask set to failbit | badbit: the text is a sequence of
 * characters read through a cursor, and every operation that would set
 * failbit ends in an `ios_base::failure` instead (a Result here).
 * Extraction follows the usual rules: a skipping sentry discards leading
 * whitespace and fails at the end of input; an operation on a stream whose
 * eofbit is set fails.
 */
module InputStreams {
  import opened Wrappers
  import opened Numerals

  /** The `std::ios_base::failure` thrown once failbit is set. It derives from `std::runtime_error`. */
  datatype Failure = IosFailure

  /** Where a stream stands: the index of the next character, and whether eofbit is set. */
  datatype Cursor = Cursor(pos: nat, eof: bool)

  /** A value extracted, and where the stream stands after it. */
  datatype Read<T> = Read(value: T, rest: Cursor)

  predicate Within(t: string, c: Cursor) {
    c.pos <= |t|
  }

  /**
   * A skipping sentry: whitespace is discarded one character at a time, and
   * the stream must then hold a character.
   */
  function SentryAt(t: string, c: Cursor): (r: Result<Cursor, Failure>)
    requires Within(t, c)
    ensures r.Ok? ==> c.pos <= r.value.pos < |t| && !r.value.eof
    decreases |t| - c.pos
  {
    if c.eof || c.pos == |t| then Err(IosFailure)
    else if IsSpace(t[c.pos]) then SentryAt(t, Cursor(c.pos + 1, false))
    else Ok(c)
  }

  /**
   * The sentry succeeds exactly when eofbit is clear and a non-space follows;
   * it stops at the first non-space.
   */
  lemma {:induction false} SentryStops(t: string, c: Cursor)
    requires Within(t, c)
    ensures SentryAt(t, c).Ok? <==> !c.eof && exists q | c.pos <= q < |t| :: !IsSpace(t[q])
    ensures SentryAt(t, c).Ok? ==> !IsSpace(t[SentryAt(t, c).value.pos])
    ensures SentryAt(t, c).Ok? ==> forall i | c.pos <= i < SentryAt(t, c).value.pos :: IsSpace(t[i])
    decreases |t| - c.pos
  {
    if !c.eof && c.pos < |t| && IsSpace(t[c.pos]) {
      SentryStops(t, Cursor(c.pos + 1, false));
      if SentryAt(t, c).Err? {
        forall q | c.pos <= q < |t|
          ensures IsSpace(t[q])
        {
          if q > c.pos {
            assert !exists q' | c.pos + 1 <= q' < |t| :: !IsSpace(t[q']);
          }
        }
      }
    }
  }

  /** `get(c)`: the next character, unskipped; fails at the end of input. */
  function GetAt(t: string, c: Cursor): (r: Result<Read<char>, Failure>)
    requires Within(t, c)
    ensures r.Ok? <==> !c.eof && c.pos < |t|
    ensures r.Ok? ==> r.value == Read(t[c.pos], Cursor(c.pos + 1, false))
  {
    if c.eof || c.pos == |t| then Err(IosFailure) else Ok(Read(t[c.pos], Cursor(c.pos + 1, false)))
  }

  /** `ignore()`: discards one character; at the end of input it sets only eofbit. */
  function IgnoreAt(t: string, c: Cursor): (r: Result<Cursor, Failure>)
    requires Within(t, c)
    ensures r.Ok? <==> !c.eof
    ensures r.Ok? ==> Within(t, r.value) && (r.value.eof <==> c.pos == |t|)
    ensures r.Ok? && c.pos < |t| ==> r.value.pos == c.pos + 1
    ensures r.Ok? && c.pos == |t| ==> r.value.pos == c.pos
  {
    if c.eof then Err(IosFailure)
    else if c.pos == |t| then Ok(Cursor(c.pos, true))
    else Ok(Cursor(c.pos + 1, false))
  }

  /** `>> std::string`: a maximal run of non-whitespace after the skipped whitespace. */
  function WordAt(t: string, c: Cursor): (r: Result<Read<string>, Failure>)
    requires Within(t, c)
    ensures r.Ok? <==> SentryAt(t, c).Ok?
    ensures r.Ok? ==> Within(t, r.value.rest) && |r.value.value| >= 1
    ensures r.Ok? ==> r.value.rest.pos == SentryAt(t, c).value.pos + |r.value.value|
    ensures r.Ok? ==> (r.value.rest.eof <==> r.value.rest.pos == |t|)
  {
    var q :- SentryAt(t, c);
    SentryStops(t, c);
    var e := TokenEnd(t, q.pos);
    Ok(Read(t[q.pos..e], Cursor(e, e == |t|)))
  }

  /** The word holds no whitespace, and what follows it is whitespace or the end. */
  lemma WordStops(t: string, c: Cursor)
    requires Within(t, c) && WordAt(t, c).Ok?
    ensures var w := WordAt(t, c).value;
            (forall i | 0 <= i < |w.value| :: !IsSpace(w.value[i])) &&
            (w.rest.pos < |t| ==> IsSpace(t[w.rest.pos]))
  {
    TokenEndStops(t, SentryAt(t, c).value.pos);
  }

  /**
   * The numeral after the skipped whitespace, if there is one: the sentry
   * discards one whitespace character at a time, then the numeral is scanned.
   */
  function NumeralAt(t: string, c: Cursor): (r: Result<Numeral, Failure>)
    requires Within(t, c)
    ensures r.Ok? ==> c.pos < r.value.end <= |t|
    decreases |t| - c.pos
  {
    if c.eof then Err(IosFailure)
    else if c.pos < |t| && IsSpace(t[c.pos]) then NumeralAt(t, Cursor(c.pos + 1, false))
    else
      var n := ScanNumeral(t, c.pos);
      if n.None? then Err(IosFailure) else Ok(n.value)
  }

  /** Scanning for a numeral is the same as running the skipping sentry, then scanning where it stops. */
  lemma {:induction false} NumeralAfterSentry(t: string, c: Cursor)
    requires Within(t, c)
    ensures NumeralAt(t, c) == (if SentryAt(t, c).Err? then Err(IosFailure)
                                else var n := ScanNumeral(t, SentryAt(t, c).value.pos);
                                     if n.None? then Err(IosFailure) else Ok(n.value))
    decreases |t| - c.pos
  {
    if !c.eof && c.pos < |t| && IsSpace(t[c.pos]) {
      NumeralAfterSentry(t, Cursor(c.pos + 1, false));
    }
  }

  /** `>> int`: a numeral whose value lies in the range of `int`. */
  function IntAt(t: string, c: Cursor): (r: Result<Read<i32>, Failure>)
    requires Within(t, c)
    ensures r.Ok? <==> NumeralAt(t, c).Ok? && INT_MIN <= Value(NumeralAt(t, c).value) <= INT_MAX
    ensures r.Ok? ==> r.value.value == Value(NumeralAt(t, c).value)
    ensures r.Ok? ==> c.pos < r.value.rest.pos <= |t| && (r.value.rest.eof <==> r.value.rest.pos == |t|)
  {
    var n :- NumeralAt(t, c);
    if Value(n) < INT_MIN || Value(n) > INT_MAX then Err(IosFailure)
    else
      var v: i32 := Value(n);
      Ok(Read(v, Cursor(n.end, n.end == |t|)))
  }

  /**
   * `>> unsigned`: the magnitude must fit in 32 bits; a leading '-' is
   * accepted and negates the value modulo 2^32.
   */
  function UnsignedAt(t: string, c: Cursor): (r: Result<Read<u32>, Failure>)
    requires Within(t, c)
    ensures r.Ok? <==> NumeralAt(t, c).Ok? && NumeralAt(t, c).value.magnitude <= UINT_MAX
    ensures r.Ok? ==> (r.value.value as int - Value(NumeralAt(t, c).value)) % 0x1_0000_0000 == 0
    ensures r.Ok? ==> c.pos < r.value.rest.pos <= |t| && (r.value.rest.eof <==> r.value.rest.pos == |t|)
  {
    var n :- NumeralAt(t, c);
    if n.magnitude > UINT_MAX then Err(IosFailure)
    else
      var v: u32 := if n.negative && n.magnitude > 0 then 0x1_0000_0000 - n.magnitude else n.magnitude;
      Ok(Read(v, Cursor(n.end, n.end == |t|)))
  }

  /**
   * One character of a `confirm_input` literal: whitespace in the literal
   * runs a skipping sentry; any other character must be the next one read.
   */
  function ConfirmCharAt(t: string, c: Cursor, ch: char): (r: Result<Cursor, Failure>)
    requires Within(t, c)
    ensures r.Ok? ==> Within(t, r.value) && !r.value.eof && c.pos <= r.value.pos
    ensures !IsSpace(ch) ==> (r.Ok? <==> !c.eof && c.pos < |t| && t[c.pos] == ch)
    ensures !IsSpace(ch) && r.Ok? ==> r.value.pos == c.pos + 1
  {
    if IsSpace(ch) then SentryAt(t, c)
    else
      var g :- GetAt(t, c);
      if g.value != ch then Err(IosFailure) else Ok(g.rest)
  }

  /** The characters of a literal, matched in order; the first mismatch fails. */
  function ConfirmCharsAt(t: string, c: Cursor, lit: string): (r: Result<Cursor, Failure>)
    requires Within(t, c)
    ensures r.Ok? ==> Within(t, r.value) && c.pos <= r.value.pos
    ensures r.Ok? && lit != [] ==> !r.value.eof
  {
    if lit == [] then Ok(c)
    else
      var c' :- ConfirmCharsAt(t, c, lit[..|lit| - 1]);
      ConfirmCharAt(t, c', lit[|lit| - 1])
  }

  /** `>> confirm_input(lit)`: does nothing unless the stream is good. */
  function ConfirmAt(t: string, c: Cursor, lit: string): (r: Result<Cursor, Failure>)
    requires Within(t, c)
    ensures c.eof ==> r == Ok(c)
    ensures r.Ok? ==> Within(t, r.value)
  {
    if c.eof then Ok(c) else ConfirmCharsAt(t, c, lit)
  }

  /** Once a prefix of the literal fails to match, the whole literal fails. */
  lemma {:induction false} ConfirmFailureSticks(t: string, c: Cursor, lit: string, k: nat)
    requires Within(t, c) && k <= |lit|
    requires ConfirmCharsAt(t, c, lit[..k]).Err?
    ensures ConfirmCharsAt(t, c, lit).Err?
    decreases |lit| - k
  {
    if k < |lit| {
      assert lit[..k + 1][..k] == lit[..k];
      ConfirmFailureSticks(t, c, lit, k + 1);
    } else {
      assert lit[..k] == lit;
    }
  }

  /**
   * A literal made of non-space characters, then one space, is confirmed by
   * exactly those characters followed by whitespace and then a non-space.
   */
  lemma {:induction false} ConfirmWordSpace(t: string, p: nat, w: string, q: nat)
    requires p + |w| < q < |t| && t[p..p + |w|] == w
    requires forall i | 0 <= i < |w| :: !IsSpace(w[i])
    requires forall i | p + |w| <= i < q :: IsSpace(t[i])
    requires !IsSpace(t[q])
    ensures ConfirmAt(t, Cursor(p, false), w + " ") == Ok(Cursor(q, false))
  {
    ConfirmWord(t, p, w, |w|);
    assert w[..|w|] == w;
    var lit := w + " ";
    assert lit[..|lit| - 1] == w && lit[|lit| - 1] == ' ';
    SentryTo(t, p + |w|, q);
    assert ConfirmCharsAt(t, Cursor(p, false), lit) == SentryAt(t, Cursor(p + |w|, false));
  }

  lemma {:induction false} ConfirmWord(t: string, p: nat, w: string, k: nat)
    requires k <= |w| && p + |w| <= |t| && t[p..p + |w|] == w
    requires forall i | 0 <= i < |w| :: !IsSpace(w[i])
    ensures ConfirmCharsAt(t, Cursor(p, false), w[..k]) == Ok(Cursor(p + k, false))
    decreases k
  {
    if k > 0 {
      assert w[..k][..k - 1] == w[..k - 1];
      ConfirmWord(t, p, w, k - 1);
      assert t[p + k - 1] == w[k - 1];
    }
  }

  /** The sentry from p stops at q when everything between is whitespace and t[q] is not. */
  lemma {:induction false} SentryTo(t: string, p: nat, q: nat)
    requires p <= q < |t|
    requires forall i | p <= i < q :: IsSpace(t[i])
    requires !IsSpace(t[q])
    ensures SentryAt(t, Cursor(p, false)) == Ok(Cursor(q, false))
    decreases q - p
  {
    if p < q {
      SentryTo(t, p + 1, q);
    }
  }

  /** On an empty stream every extraction fails: nothing can be read from "". */
  lemma EmptyStreamFails(c: Cursor, lit: string)
    requires Within("", c)
    requires exists i | 0 <= i < |lit| :: !IsSpace(lit[i])
    ensures WordAt("", c).Err? && IntAt("", c).Err? && UnsignedAt("", c).Err? && GetAt("", c).Err?
    ensures !c.eof ==> ConfirmAt("", c, lit).Err?
  {
    if !c.eof {
      var i :| 0 <= i < |lit| && !IsSpace(lit[i]);
      ConfirmCharsEmpty(c, lit, i + 1);
    }
  }

  lemma {:induction false} ConfirmCharsEmpty(c: Cursor, lit: string, k: nat)
    requires Within("", c) && 0 < k <= |lit| && !IsSpace(lit[k - 1])
    ensures ConfirmCharsAt("", c, lit).Err?
  {
    assert lit[..k][..k - 1] == lit[..k - 1];
    ConfirmFailureSticks("", c, lit, k);
  }

  /**
   * A `std::istream&` over a fixed text. Operations advance the cursor; one
   * that fails reports the failure and leaves the stream unusable (its
   * position afterwards is not stated).
   */
  class InputStream {
    const text: string
    var pos: nat
    var eof: bool

    ghost predicate Valid()
      reads this
    {
      pos <= |text|
    }

    function At(): Cursor
      reads this
    {
      Cursor(pos, eof)
    }

    constructor (text: string)
      ensures Valid() && this.text == text && At() == Cursor(0, false)
    {
      this.text := text;
      pos := 0;
      eof := false;
    }

    method Get() returns (r: Result<char, Failure>)
      requires Valid()
      modifies this
      ensures Valid()
      ensures r.Ok? <==> GetAt(text, old(At())).Ok?
      ensures r.Ok? ==> r.value == GetAt(text, old(At())).value.value && At() == GetAt(text, old(At())).value.rest
    {
      var g :- GetAt(text, At());
      pos, eof := g.rest.pos, g.rest.eof;
      return Ok(g.value);
    }

    method Sentry() returns (r: Result<(), Failure>)
      requires Valid()
      modifies this
      ensures Valid()
      ensures r.Ok? <==> SentryAt(text, old(At())).Ok?
      ensures r.Ok? ==> At() == SentryAt(text, old(At())).value
    {
      var c :- SentryAt(text, At());
      pos, eof := c.pos, c.eof;
      return Ok(());
    }

    method Ignore() returns (r: Result<(), Failure>)
      requires Valid()
      modifies this
      ensures Valid()
      ensures r.Ok? <==> IgnoreAt(text, old(At())).Ok?
      ensures r.Ok? ==> At() == IgnoreAt(text, old(At())).value
    {
      var c :- IgnoreAt(text, At());
      pos, eof := c.pos, c.eof;
      return Ok(());
    }

    method ReadWord() returns (r: Result<string, Failure>)
      requires Valid()
      modifies this
      ensures Valid()
      ensures r.Ok? <==> WordAt(text, old(At())).Ok?
      ensures r.Ok? ==> r.value == WordAt(text, old(At())).value.value && At() == WordAt(text, old(At())).value.rest
    {
      var w :- WordAt(text, At());
      pos, eof := w.rest.pos, w.rest.eof;
      return Ok(w.value);
    }

    method ReadInt() returns (r: Result<i32, Failure>)
      requires Valid()
      modifies this
      ensures Valid()
      ensures r.Ok? <==> IntAt(text, old(At())).Ok?
      ensures r.Ok? ==> r.value == IntAt(text, old(At())).value.value && At() == IntAt(text, old(At())).value.rest
    {
      var n :- IntAt(text, At());
      pos, eof := n.rest.pos, n.rest.eof;
      return Ok(n.value);
    }

    method ReadUnsigned() returns (r: Result<u32, Failure>)
      requires Valid()
      modifies this
      ensures Valid()
      ensures r.Ok? <==> UnsignedAt(text, old(At())).Ok?
      ensures r.Ok? ==> r.value == UnsignedAt(text, old(At())).value.value && At() == UnsignedAt(text, old(At())).value.rest
    {
      var n :- UnsignedAt(text, At());
      pos, eof := n.rest.pos, n.rest.eof;
      return Ok(n.value);
    }

    /**
     * `istr >> confirm_input(lit)`: nothing happens on a stream that is not
     * good; otherwise the literal is matched character by character.
     */
    method ConfirmInput(lit: string) returns (r: Result<(), Failure>)
      requires Valid()
      modifies this
      ensures Valid()
      ensures r.Ok? <==> ConfirmAt(text, old(At()), lit).Ok?
      ensures r.Ok? ==> At() == ConfirmAt(text, old(At()), lit).value
    {
      if eof {
        return Ok(());
      }
      ghost var c0 := At();
      var k := 0;
      while k < |lit|
        invariant k <= |lit| && Valid()
        invariant ConfirmCharsAt(text, c0, lit[..k]) == Ok(At())
      {
        assert lit[..k + 1][..k] == lit[..k];
        if IsSpace(lit[k]) {
          var s := Sentry();
          if s.Err? {
            ConfirmFailureSticks(text, c0, lit, k + 1);
            return Err(IosFailure);
          }
        } else {
          var g := Get();
          if g.Err? || g.value != lit[k] {
            ConfirmFailureSticks(text, c0, lit, k + 1);
            return Err(IosFailure);
          }
        }
        k := k + 1;
      }
      assert lit[..k] == lit;
      return Ok(());
    }
  }
}
