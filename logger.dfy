/**
 * The debug stream buffer: a stream buffer that forwards every character
 * to a real buffer and, at the start of each line, writes a prefix first:
 * an optional timestamp, '-', the pending log level's character, '-', and
 * a pending tag followed by a space. The level falls back to INFO and the
 * tag is cleared once a prefix is written. Stream manipulators set the
 * level, the tag and the timestamp switch, but only on a debug buffer.
 */
module Loggers {
  import opened Wrappers

  /** `traits_type::int_type`: a character, or the end-of-file marker. */
  datatype IntType = Eof | Char(c: char)

  /**
   * The character `static_cast<char>(LogLevel::INFO)`. The enumerator values
   * of LogLevel are declared in a header that is not part of this model.
   */
  const Info: char := 'I'

  /** The state overflow() reads and updates, apart from the real buffer. */
  datatype BufState = BufState(bol: bool, level: char, showTime: bool, tag: string)

  /** A new buffer: at the beginning of a line, level INFO, no timestamp, no tag. */
  const Initial: BufState := BufState(true, Info, false, "")

  /** The prefix written before the first character of a line; timestamp is the clock's text. */
  function Prefix(st: BufState, timestamp: string): string
  {
    (if st.showTime then timestamp else "") + ['-', st.level, '-'] + (if st.tag != "" then st.tag + " " else "")
  }

  /** What overflow(c) writes to the real buffer: the prefix at the beginning of a line, then c. */
  function Written(st: BufState, c: char, timestamp: string): (r: string)
    ensures |r| >= 1 && r[|r| - 1] == c
    ensures !st.bol ==> r == [c]
    ensures st.bol && !st.showTime ==> |r| >= 4 && r[..3] == ['-', st.level, '-']
  {
    (if st.bol then Prefix(st, timestamp) else "") + [c]
  }

  /** The state after overflow(c): a prefix resets level and tag; a newline re-arms the line start. */
  function Next(st: BufState, c: char): (r: BufState)
    ensures r.bol <==> c == '\n'
    ensures r.showTime == st.showTime
    ensures st.bol ==> r.level == Info && r.tag == ""
    ensures !st.bol ==> r.level == st.level && r.tag == st.tag
  {
    var st' := if st.bol then st.(bol := false, level := Info, tag := "") else st;
    if c == '\n' then st'.(bol := true) else st'
  }

  /** `traits_type::not_eof`: eof() becomes 0, any character is itself. */
  function NotEof(c: IntType): (r: IntType)
    ensures r != Eof
    ensures c.Char? ==> r == c
  {
    if c.Eof? then Char(0 as char) else c
  }

  /** What writing the characters of s one by one writes, each line start seeing the same clock text. */
  function Output(st: BufState, s: string, timestamp: string): string
    decreases |s|
  {
    if s == "" then "" else Written(st, s[0], timestamp) + Output(Next(st, s[0]), s[1..], timestamp)
  }

  /** The state after writing the characters of s. */
  function After(st: BufState, s: string): BufState
    decreases |s|
  {
    if s == "" then st else After(Next(st, s[0]), s[1..])
  }

  /** The index just after the first newline of s, or the end of s. */
  function LineEnd(s: string): (k: nat)
    ensures k <= |s|
    ensures s != "" ==> k > 0
    ensures forall i | 0 <= i < k - 1 :: s[i] != '\n'
    ensures k < |s| ==> s[k - 1] == '\n'
    decreases |s|
  {
    if s == "" then 0 else if s[0] == '\n' then 1 else 1 + LineEnd(s[1..])
  }

  /** Plain text with each line, from the start of the text and after every newline, headed by "-I-". */
  function InfoLines(s: string): string
    decreases |s|
  {
    if s == "" then ""
    else
      var k := LineEnd(s);
      ['-', Info, '-'] + s[..k] + InfoLines(s[k..])
  }

  /** Inside a line, characters pass through unchanged and only a final newline re-arms the line start. */
  lemma {:induction false} RestOfLine(st: BufState, s: string, timestamp: string)
    requires !st.bol
    requires forall i | 0 <= i < |s| - 1 :: s[i] != '\n'
    ensures Output(st, s, timestamp) == s
    ensures After(st, s) == st.(bol := s != "" && s[|s| - 1] == '\n')
    decreases |s|
  {
    if s != "" {
      var st1 := Next(st, s[0]);
      if |s| == 1 {
        assert s[1..] == "";
        assert Output(st1, s[1..], timestamp) == "";
      } else {
        assert st1 == st;
        RestOfLine(st1, s[1..], timestamp);
        assert s == [s[0]] + s[1..];
      }
    }
  }

  /** Output and final state of a text split in two are those of its parts. */
  lemma {:induction false} OutputSplit(st: BufState, a: string, b: string, timestamp: string)
    ensures Output(st, a + b, timestamp) == Output(st, a, timestamp) + Output(After(st, a), b, timestamp)
    ensures After(st, a + b) == After(After(st, a), b)
    decreases |a|
  {
    if a == "" {
      assert a + b == b;
    } else {
      var st1 := Next(st, a[0]);
      assert (a + b)[0] == a[0] && (a + b)[1..] == a[1..] + b;
      OutputStep(st, a + b, timestamp);
      OutputStep(st, a, timestamp);
      OutputSplit(st1, a[1..], b, timestamp);
      ConcatAssoc(Written(st, a[0], timestamp), Output(st1, a[1..], timestamp), Output(After(st1, a[1..]), b, timestamp));
    }
  }

  /** Writing one more character of s adds what overflow writes for it. */
  lemma OutputSnoc(st: BufState, s: string, i: nat, timestamp: string)
    requires i < |s|
    ensures Output(st, s[..i + 1], timestamp) == Output(st, s[..i], timestamp) + Written(After(st, s[..i]), s[i], timestamp)
    ensures After(st, s[..i + 1]) == Next(After(st, s[..i]), s[i])
  {
    assert s[..i + 1] == s[..i] + [s[i]];
    OutputSplit(st, s[..i], [s[i]], timestamp);
    assert [s[i]][1..] == "";
  }

  /** A first line from a fresh state: "-I-" then the line; after its newline the state is fresh again. */
  lemma FirstLine(line: string, timestamp: string)
    requires line != "" && forall i | 0 <= i < |line| - 1 :: line[i] != '\n'
    ensures Output(Initial, line, timestamp) == ['-', Info, '-'] + line
    ensures line[|line| - 1] == '\n' ==> After(Initial, line) == Initial
  {
    var c, rest := line[0], line[1..];
    OutputStep(Initial, line, timestamp);
    WrittenFresh(c, timestamp);
    if rest == "" {
      Glue(['-', Info, '-', c], c, "", line);
    } else {
      RestAfterFirst(line, timestamp);
      Glue(['-', Info, '-', c], c, rest, line);
    }
  }

  /** The first character written from a fresh state gets the bare "-I-" prefix. */
  lemma WrittenFresh(c: char, timestamp: string)
    ensures Written(Initial, c, timestamp) == ['-', Info, '-', c]
  {
  }

  lemma Glue(w: string, c: char, rest: string, line: string)
    requires w == ['-', Info, '-', c] && line == [c] + rest
    ensures w + rest == ['-', Info, '-'] + line
  {
  }

  /** After the first character of a line, the rest of it passes through. */
  lemma RestAfterFirst(line: string, timestamp: string)
    requires |line| > 1 && forall i | 0 <= i < |line| - 1 :: line[i] != '\n'
    ensures Output(Next(Initial, line[0]), line[1..], timestamp) == line[1..]
    ensures After(Next(Initial, line[0]), line[1..]) == Initial.(bol := line[|line| - 1] == '\n')
  {
    var rest := line[1..];
    assert forall i | 0 <= i < |rest| - 1 :: rest[i] == line[i + 1];
    RestOfLine(Next(Initial, line[0]), rest, timestamp);
  }

  /** Writing a non-empty text is writing its first character, then the rest. */
  lemma OutputStep(st: BufState, s: string, timestamp: string)
    requires s != ""
    ensures Output(st, s, timestamp) == Written(st, s[0], timestamp) + Output(Next(st, s[0]), s[1..], timestamp)
    ensures After(st, s) == After(Next(st, s[0]), s[1..])
  {
  }

  /**
   * From a fresh buffer, the real buffer receives every character once, in
   * order, each line headed by "-I-".
   */
  lemma {:induction false} PlainTextIsPrefixedPerLine(s: string, timestamp: string)
    ensures Output(Initial, s, timestamp) == InfoLines(s)
    decreases |s|
  {
    if s != "" {
      var k := LineEnd(s);
      var line, rest := s[..k], s[k..];
      assert s == line + rest;
      OutputSplit(Initial, line, rest, timestamp);
      FirstLine(line, timestamp);
      if rest != "" {
        PlainTextIsPrefixedPerLine(rest, timestamp);
      } else {
        assert InfoLines(rest) == "" && Output(After(Initial, line), rest, timestamp) == "";
      }
    }
  }

  /** A pending tag is written once, after the level, and then cleared. */
  lemma TagWrittenOnce(st: BufState, c: char, d: char, timestamp: string)
    requires st.bol && !st.showTime && st.tag != "" && c != '\n'
    ensures Output(st, [c, d], timestamp) == ['-', st.level, '-'] + st.tag + [' ', c, d]
    ensures After(st, [c, d]).tag == ""
  {
    var st1 := Next(st, c);
    assert [c, d][1..] == [d] && [d][1..] == "";
    assert Written(st, c, timestamp) == ['-', st.level, '-'] + st.tag + [' ', c];
    assert Output(st1, [d], timestamp) == [d] + Output(Next(st1, d), "", timestamp);
    assert Output(st, [c, d], timestamp) == Written(st, c, timestamp) + Output(st1, [d], timestamp);
    assert After(st, [c, d]) == After(st1, [d]) == After(Next(st1, d), "");
  }

  class DebugStreambuf {
    var bol: bool
    var level: char
    var showTime: bool
    var tag: string
    /** Everything written to the real buffer through this one. */
    var out: string

    function State(): BufState
      reads this
    {
      BufState(bol, level, showTime, tag)
    }

    /** `DebugStreambuf(real_buf)`. */
    constructor ()
      ensures State() == Initial && out == ""
    {
      bol, level, showTime, tag, out := true, Info, false, "", "";
    }

    /**
     * `overflow(c)`: an end-of-file writes nothing and gives `not_eof`;
     * a character gets the line prefix when a line starts, then goes out.
     * The timestamp is the clock's text, used only when the switch is on.
     */
    method Overflow(c: IntType, timestamp: string) returns (r: IntType)
      modifies this
      ensures r == NotEof(c)
      ensures c.Eof? ==> State() == old(State()) && out == old(out)
      ensures c.Char? ==> out == old(out) + Written(old(State()), c.c, timestamp)
      ensures c.Char? ==> State() == Next(old(State()), c.c)
    {
      r := NotEof(c);
      if c.Char? {
        if bol {
          WritePrefix(timestamp);
        }
        out := out + [c.c];
        r := c;
        if c.c == '\n' {
          bol := true;
        }
      }
    }

    /** The line prefix: timestamp if switched on, '-', the level, '-', then a pending tag and a space. */
    method WritePrefix(timestamp: string)
      requires bol
      modifies this
      ensures out == old(out) + Prefix(old(State()), timestamp)
      ensures State() == old(State()).(bol := false, level := Info, tag := "")
    {
      ghost var was := out;
      if showTime {
        out := out + timestamp;
      }
      out := out + ['-', level, '-'];
      assert out == was + (if showTime then timestamp else "") + ['-', level, '-'];
      bol := false;
      level := Info;
      if tag != "" {
        out := out + tag + [' '];
        tag := "";
      }
    }

    /** Writes the characters of s one at a time through `overflow`. */
    method WriteAll(s: string, timestamp: string)
      modifies this
      ensures out == old(out) + Output(old(State()), s, timestamp)
      ensures State() == After(old(State()), s)
    {
      var i := 0;
      while i < |s|
        invariant i <= |s|
        invariant out == old(out) + Output(old(State()), s[..i], timestamp)
        invariant State() == After(old(State()), s[..i])
      {
        var _ := Overflow(Char(s[i]), timestamp);
        OutputSnoc(old(State()), s, i, timestamp);
        ConcatAssoc(old(out), Output(old(State()), s[..i], timestamp), Written(After(old(State()), s[..i]), s[i], timestamp));
        i := i + 1;
      }
      assert s[..i] == s;
    }
  }

  /** A stream's buffer, as the manipulators see it after `dynamic_cast`: a debug buffer or another kind. */
  datatype StreamBuf = Debug(buf: DebugStreambuf) | Other

  /** `ostr << level`: sets the pending level of a debug buffer; another buffer is left alone. */
  method PutLevel(rdbuf: StreamBuf, level: char)
    modifies if rdbuf.Debug? then {rdbuf.buf} else {}
    ensures rdbuf.Debug? ==> rdbuf.buf.State() == old(rdbuf.buf.State()).(level := level) && rdbuf.buf.out == old(rdbuf.buf.out)
  {
    if rdbuf.Debug? {
      rdbuf.buf.level := level;
    }
  }

  /** `ostr << LogTagSetter(tag)`: sets the pending tag of a debug buffer. */
  method PutTag(rdbuf: StreamBuf, tag: string)
    modifies if rdbuf.Debug? then {rdbuf.buf} else {}
    ensures rdbuf.Debug? ==> rdbuf.buf.State() == old(rdbuf.buf.State()).(tag := tag) && rdbuf.buf.out == old(rdbuf.buf.out)
  {
    if rdbuf.Debug? {
      rdbuf.buf.tag := tag;
    }
  }

  /** `ostr << ShowTimeSetter(on)`: switches the timestamp of a debug buffer. */
  method PutShowTime(rdbuf: StreamBuf, on: bool)
    modifies if rdbuf.Debug? then {rdbuf.buf} else {}
    ensures rdbuf.Debug? ==> rdbuf.buf.State() == old(rdbuf.buf.State()).(showTime := on) && rdbuf.buf.out == old(rdbuf.buf.out)
  {
    if rdbuf.Debug? {
      rdbuf.buf.showTime := on;
    }
  }
}
