/** The text of .config files: escaping, the line written for a symbol, splitting a file
    into lines, and what one line assigns. */
module ConfigText {
  import opened Expressions
  import opened Wrappers
  import opened Values

  const PREFIX := "CONFIG_"
  const NOT_SET := " is not set"

  // ---------- escaping ----------

  // " and \ are preceded by a backslash
  function Escape(s: string): string {
    if s == [] then []
    else if s[0] == '\\' || s[0] == '\"' then ['\\', s[0]] + Escape(s[1..])
    else [s[0]] + Escape(s[1..])
  }

  // A backslash and any character but a newline stand for the character
  function Unescape(s: string): string {
    if s == [] then []
    else if s[0] == '\\' && |s| > 1 && s[1] != '\n' then [s[1]] + Unescape(s[2..])
    else [s[0]] + Unescape(s[1..])
  }

  // The end of the contents of a string literal, from `i` on: the first quote that is not escaped
  function LiteralEnd(s: string, i: nat): (r: Option<nat>)
    requires i <= |s|
    ensures r.Some? ==> i <= r.value < |s| && s[r.value] == '\"'
    decreases |s| - i
  {
    if i == |s| then None
    else if s[i] == '\"' then Some(i)
    else if s[i] == '\\' then
      if i + 1 < |s| && s[i + 1] != '\n' then LiteralEnd(s, i + 2) else None
    else LiteralEnd(s, i + 1)
  }

  // The contents of the string literal `s` starts with, still escaped
  function LiteralContents(s: string): Option<string> {
    if s == [] || s[0] != '\"' then None
    else match LiteralEnd(s, 1) case Some(e) => Some(s[1..e]) case None => None
  }

  lemma {:induction false} EscapeRoundTrip(s: string)
    ensures Unescape(Escape(s)) == s
  {
    if s != [] {
      EscapeRoundTrip(s[1..]);
      assert s == [s[0]] + s[1..];
      if s[0] == '\\' || s[0] == '\"' {
        assert Escape(s)[2..] == Escape(s[1..]);
      } else {
        assert Escape(s)[1..] == Escape(s[1..]);
      }
    }
  }

  predicate HasBreak(s: string) { '\n' in s || '\r' in s }

  lemma {:induction false} EscapeKeepsBreaks(s: string)
    ensures HasBreak(Escape(s)) == HasBreak(s)
  {
    if s != [] {
      EscapeKeepsBreaks(s[1..]);
      assert s == [s[0]] + s[1..];
    }
  }

  lemma {:induction false} LiteralEndOfEscaped(pre: string, s: string, post: string)
    requires !HasBreak(s)
    ensures LiteralEnd(pre + Escape(s) + ['\"'] + post, |pre|) == Some(|pre| + |Escape(s)|)
    decreases |s|
  {
    var whole := pre + Escape(s) + ['\"'] + post;
    if s != [] {
      var first := if s[0] == '\\' || s[0] == '\"' then ['\\', s[0]] else [s[0]];
      assert Escape(s) == first + Escape(s[1..]);
      assert whole == (pre + first) + Escape(s[1..]) + ['\"'] + post;
      assert s[0] in s;
      LiteralEndOfEscaped(pre + first, s[1..], post);
    }
  }

  /** What is written between the quotes is what is read back. */
  lemma LiteralRoundTrip(s: string)
    requires !HasBreak(s)
    ensures LiteralContents(['\"'] + Escape(s) + ['\"']) == Some(Escape(s))
    ensures Unescape(Escape(s)) == s
  {
    LiteralEndOfEscaped(['\"'], s, []);
    assert ['\"'] + Escape(s) + ['\"'] + [] == ['\"'] + Escape(s) + ['\"'];
    EscapeRoundTrip(s);
  }

  lemma {:induction false} UnescapeKeepsNoBreaks(s: string)
    requires !HasBreak(s)
    ensures !HasBreak(Unescape(s))
    decreases |s|
  {
    if s != [] {
      assert s[0] in s;
      if s[0] == '\\' && |s| > 1 && s[1] != '\n' {
        assert s[1] in s;
        UnescapeKeepsNoBreaks(s[2..]);
      } else {
        UnescapeKeepsNoBreaks(s[1..]);
      }
    }
  }

  // ---------- the entry of one symbol ----------

  // The entry without its newline
  function EntryLine(k: Kconf, s: nat, val: string): string {
    var d := k.SymAt(s);
    if BoolTri(d.orig) then
      if val != "n" then PREFIX + d.name + "=" + val else "# " + PREFIX + d.name + NOT_SET
    else if Numeric(d.orig) then PREFIX + d.name + "=" + val
    else PREFIX + d.name + "=\"" + Escape(val) + "\""
  }

  // The entry of a symbol in a configuration file; empty if it gets none
  function ConfigString(k: Kconf, u: User, env: Env, s: nat): string {
    if WrittenToConf(k, u, env, s) then EntryLine(k, s, StrAt(env, s)) + "\n" else ""
  }

  // ---------- lines ----------

  predicate IsSpace(c: char) {
    c == ' ' || '\t' <= c <= '\r' || (0x1c as char) <= c <= (0x1f as char) ||
    c == 0x85 as char || c == 0xa0 as char || c == 0x1680 as char ||
    (0x2000 as char) <= c <= (0x200a as char) || c == 0x2028 as char || c == 0x2029 as char ||
    c == 0x202f as char || c == 0x205f as char || c == 0x3000 as char
  }

  function RStrip(s: string): string {
    if s != [] && IsSpace(s[|s| - 1]) then RStrip(s[..|s| - 1]) else s
  }

  lemma {:induction false} RStripTwice(s: string)
    ensures RStrip(RStrip(s)) == RStrip(s)
  {
    if s != [] && IsSpace(s[|s| - 1]) {
      RStripTwice(s[..|s| - 1]);
    }
  }

  // What does not end in space stays
  lemma {:induction false} RStripBehind(head: string, val: string)
    requires head != [] && !IsSpace(head[|head| - 1])
    ensures RStrip(head + val) == head + RStrip(val)
  {
    if val == [] {
      assert head + val == head;
    } else if IsSpace(val[|val| - 1]) {
      assert (head + val)[..|head + val| - 1] == head + val[..|val| - 1];
      RStripBehind(head, val[..|val| - 1]);
    }
  }

  /** The lines of a text file read with universal newlines, without their terminators. */
  function Lines(text: string): seq<string> { LinesFrom(text, []) }

  // `cur` is the unfinished line
  function LinesFrom(text: string, cur: string): seq<string> {
    if text == [] then (if cur == [] then [] else [cur])
    else if text[0] == '\n' then [cur] + LinesFrom(text[1..], [])
    else if text[0] == '\r' then
      [cur] + LinesFrom(if |text| > 1 && text[1] == '\n' then text[2..] else text[1..], [])
    else LinesFrom(text[1..], cur + [text[0]])
  }

  lemma {:induction false} LinesHaveNoBreaks(text: string, cur: string)
    requires !HasBreak(cur)
    ensures forall l <- LinesFrom(text, cur) :: !HasBreak(l)
    decreases |text|
  {
    if text != [] {
      if text[0] == '\n' {
        LinesHaveNoBreaks(text[1..], []);
      } else if text[0] == '\r' {
        LinesHaveNoBreaks(if |text| > 1 && text[1] == '\n' then text[2..] else text[1..], []);
      } else {
        LinesHaveNoBreaks(text[1..], cur + [text[0]]);
      }
    }
  }

  // A terminated line without breaks is the first line
  lemma {:induction false} FirstLine(line: string, rest: string, cur: string)
    requires !HasBreak(line)
    ensures LinesFrom(line + "\n" + rest, cur) == [cur + line] + LinesFrom(rest, [])
    decreases |line|
  {
    var text := line + "\n" + rest;
    if line == [] {
      assert text[1..] == rest && text[0] == '\n';
      assert cur + line == cur;
    } else {
      assert line[0] in line;
      assert text[0] == line[0] && text[1..] == line[1..] + "\n" + rest;
      FirstLine(line[1..], rest, cur + [line[0]]);
      assert cur + [line[0]] + line[1..] == cur + line;
    }
  }

  lemma {:induction false} ReturnLine(line: string, rest: string, cur: string)
    requires !HasBreak(line)
    ensures LinesFrom(line + "\r\n" + rest, cur) == [cur + line] + LinesFrom(rest, [])
    ensures rest == [] || rest[0] != '\n' ==> LinesFrom(line + "\r" + rest, cur) == [cur + line] + LinesFrom(rest, [])
    decreases |line|
  {
    var (both, one) := (line + "\r\n" + rest, line + "\r" + rest);
    if line == [] {
      assert both[2..] == rest && both[0] == '\r' && both[1] == '\n';
      assert one[1..] == rest && one[0] == '\r' && (rest != [] ==> one[1] == rest[0]);
      assert cur + line == cur;
    } else {
      assert line[0] in line;
      assert both[0] == line[0] && both[1..] == line[1..] + "\r\n" + rest;
      assert one[0] == line[0] && one[1..] == line[1..] + "\r" + rest;
      ReturnLine(line[1..], rest, cur + [line[0]]);
      assert cur + [line[0]] + line[1..] == cur + line;
    }
  }

  lemma {:induction false} LastLine(line: string, cur: string)
    requires !HasBreak(line)
    ensures LinesFrom(line, cur) == if cur + line == [] then [] else [cur + line]
    decreases |line|
  {
    if line == [] {
      assert cur + line == cur;
    } else {
      assert line[0] in line;
      LastLine(line[1..], cur + [line[0]]);
      assert cur + [line[0]] + line[1..] == cur + line;
    }
  }

  /** A line ends with a newline, a carriage return or both; what is left at the end of the
      file is a line too, if there is anything. */
  lemma LinesMean(line: string, rest: string)
    requires !HasBreak(line)
    ensures Lines(line + "\n" + rest) == Lines(line + "\r\n" + rest) == [line] + Lines(rest)
    ensures rest == [] || rest[0] != '\n' ==> Lines(line + "\r" + rest) == [line] + Lines(rest)
    ensures Lines(line) == if line == [] then [] else [line]
  {
    FirstLine(line, rest, []);
    ReturnLine(line, rest, []);
    LastLine(line, []);
    assert [] + line == line;
  }

  lemma {:induction false} RStripPrefix(s: string)
    ensures RStrip(s) <= s && (RStrip(s) == [] || !IsSpace(RStrip(s)[|RStrip(s)| - 1]))
    ensures RStrip(RStrip(s)) == RStrip(s)
  {
    if s != [] && IsSpace(s[|s| - 1]) {
      RStripPrefix(s[..|s| - 1]);
    }
  }

  // ---------- what a line assigns ----------

  datatype Assigned = Set(name: string, val: string) | Unset(name: string) | Nothing

  // The first position of `c`, from `i` on
  function Find(s: string, c: char, i: nat): (r: Option<nat>)
    requires i <= |s|
    ensures r.Some? ==> i <= r.value < |s| && s[r.value] == c && c !in s[i..r.value]
    ensures r.None? ==> c !in s[i..]
    decreases |s| - i
  {
    if i == |s| then None else if s[i] == c then Some(i) else Find(s, c, i + 1)
  }

  // CONFIG_<name>=<value>, the name being non-empty and without '='
  function SetMatch(line: string): Option<(string, string)> {
    if !(PREFIX <= line) then None
    else
      match Find(line, '=', |PREFIX|)
      case Some(e) => if e == |PREFIX| then None else Some((line[|PREFIX|..e], line[e + 1..]))
      case None => None
  }

  // # CONFIG_<name> is not set, followed by anything, the name being non-empty and without spaces
  function UnsetMatch(line: string): Option<string> {
    var start := "# " + PREFIX;
    if !(start <= line) then None
    else
      match Find(line, ' ', |start|)
      case Some(e) => if e > |start| && NOT_SET <= line[e..] then Some(line[|start|..e]) else None
      case None => None
  }

  function Parse(line: string): Assigned {
    var l := RStrip(line);
    match SetMatch(l)
    case Some((name, val)) => Set(name, val)
    case None => match UnsetMatch(l) case Some(name) => Unset(name) case None => Nothing
  }

  // Names the tokeniser accepts have none of these
  predicate PlainName(name: string) {
    name != [] && '=' !in name && ' ' !in name && !HasBreak(name)
  }

  lemma {:induction false} FindFirst(a: string, c: char, b: string, start: nat)
    requires start <= |a| && c !in a[start..]
    ensures Find(a + [c] + b, c, start) == Some(|a|)
    decreases |a| - start
  {
    if start < |a| {
      assert a[start] in a[start..];
      assert forall x <- a[start + 1..] :: x in a[start..];
      FindFirst(a, c, b, start + 1);
    }
  }

  /** A set line without trailing whitespace is read back as it was written. */
  lemma ParseSet(name: string, val: string)
    requires PlainName(name)
    ensures RStrip(PREFIX + name + "=" + val) == PREFIX + name + "=" + RStrip(val)
    ensures Parse(PREFIX + name + "=" + val) == Set(name, RStrip(val))
  {
    RStripTail(PREFIX + name + "=", val);
    var l := PREFIX + name + "=" + RStrip(val);
    assert (PREFIX + name)[|PREFIX|..] == name;
    FindFirst(PREFIX + name, '=', RStrip(val), |PREFIX|);
    assert PREFIX + name + ['='] + RStrip(val) == l;
    assert PREFIX <= l;
    assert l[|PREFIX|..|PREFIX| + |name|] == name;
    assert l[|PREFIX| + |name| + 1..] == RStrip(val);
  }

  lemma {:induction false} RStripTail(a: string, b: string)
    requires a != [] && !IsSpace(a[|a| - 1])
    ensures RStrip(a + b) == a + RStrip(b)
    decreases |b|
  {
    if b == [] {
      assert a + b == a;
    } else if IsSpace(b[|b| - 1]) {
      assert (a + b)[..|a + b| - 1] == a + b[..|b| - 1];
      RStripTail(a, b[..|b| - 1]);
    }
  }

  lemma ParseUnset(name: string)
    requires PlainName(name)
    ensures Parse("# " + PREFIX + name + NOT_SET) == Unset(name)
  {
    var l := "# " + PREFIX + name + NOT_SET;
    assert l[|l| - 1] == 't';
    assert RStrip(l) == l;
    assert !(PREFIX <= l) by { assert l[0] == '#'; }
    var start := "# " + PREFIX;
    assert (start + name)[|start|..] == name;
    FindFirst(start + name, ' ', "is not set", |start|);
    assert start + name + [' '] + "is not set" == l;
    assert start <= l;
    assert l[|start| + |name|..] == NOT_SET;
    assert l[|start|..|start| + |name|] == name;
  }

  // What a line sets has no break and, unless empty, no trailing whitespace
  lemma ParsedClean(line: string)
    requires !HasBreak(line)
    ensures Parse(line).Set? ==> !HasBreak(Parse(line).val) && RStrip(Parse(line).val) == Parse(line).val
  {
    RStripPrefix(line);
    var l := RStrip(line);
    if Parse(line).Set? {
      var val := Parse(line).val;
      assert val == l[|l| - |val|..];
      forall c | c in val ensures c in line { assert c in l; }
    }
  }
}
