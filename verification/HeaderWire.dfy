/** A node header on its way from the nexus to a primary write client: newlines are sent as
    backslashes, the command line is split and trimmed, and the client turns backslashes back. */
module HeaderWire {
  import opened Common
  import AsciiHeader

  function Subst(s: string, from: char, to: char): (t: string)
    ensures |t| == |s| && forall i :: 0 <= i < |s| ==> t[i] == if s[i] == from then to else s[i]
  {
    seq(|s|, i requires 0 <= i < |s| => if s[i] == from then to else s[i])
  }

  /** The strchr loop, run by both programs on their own header buffer. */
  method Replace(a: array<char>, from: char, to: char)
    requires from != to
    modifies a
    ensures a[..] == Subst(old(a[..]), from, to)
  {
    var p := 0;
    while p < a.Length
      invariant p <= a.Length
      invariant forall i :: 0 <= i < p ==> a[i] == if old(a[i]) == from then to else old(a[i])
      invariant forall i :: p <= i < a.Length ==> a[i] == old(a[i])
    {
      if a[p] == from { a[p] := to; }
      p := p + 1;
    }
  }

  predicate IsSpace(c: char) { c == ' ' || c == '\r' || c == '\t' || c == '\n' }

  function SkipSpace(s: string): string
  {
    if s != [] && IsSpace(s[0]) then SkipSpace(s[1..]) else s
  }

  /** Trailing white space goes, but never the first character. */
  function TrimEnd(s: string): string
  {
    if |s| > 1 && IsSpace(s[|s| - 1]) then TrimEnd(s[..|s| - 1]) else s
  }

  /** Length of the first word. */
  function WordLength(s: string): (n: nat)
    ensures n <= |s|
    ensures forall i :: 0 <= i < n ==> !IsSpace(s[i])
    ensures n < |s| ==> IsSpace(s[n])
  {
    if s == [] || IsSpace(s[0]) then 0 else 1 + WordLength(s[1..])
  }

  /** Command word and arguments; no arguments is a null pointer.  A line that ends with its first
      word leaves strsep nothing to point at. */
  datatype Line = Line(key: string, args: Option<string>) | NoDelimiter

  function Parsed(cmd: string): Line {
    var s := SkipSpace(cmd);
    var n := WordLength(s);
    if n == |s| then NoDelimiter
    else
      var args := TrimEnd(SkipSpace(s[n + 1..]));
      Line(s[..n], if args == [] then None else Some(args))
  }

  method Skip(cmd: string, from: nat) returns (p: nat)
    requires from <= |cmd|
    ensures from <= p <= |cmd| && SkipSpace(cmd[from..]) == cmd[p..]
  {
    p := from;
    while p < |cmd| && IsSpace(cmd[p])
      invariant from <= p <= |cmd| && SkipSpace(cmd[from..]) == SkipSpace(cmd[p..])
    {
      assert cmd[p..][1..] == cmd[p + 1..];
      p := p + 1;
    }
  }

  method WordEnd(cmd: string, from: nat) returns (q: nat)
    requires from <= |cmd|
    ensures q == from + WordLength(cmd[from..])
  {
    q := from;
    while q < |cmd| && !IsSpace(cmd[q])
      invariant from <= q <= |cmd|
      invariant WordLength(cmd[from..]) == q - from + WordLength(cmd[q..])
    {
      assert cmd[q..][1..] == cmd[q + 1..];
      q := q + 1;
    }
  }

  method CutTrailing(cmd: string, from: nat) returns (e: nat)
    requires from <= |cmd|
    ensures from <= e <= |cmd| && TrimEnd(cmd[from..]) == cmd[from..e]
  {
    e := |cmd|;
    assert cmd[from..] == cmd[from..e];
    while e - 1 > from && IsSpace(cmd[e - 1])
      invariant from <= e <= |cmd| && TrimEnd(cmd[from..]) == TrimEnd(cmd[from..e])
    {
      assert cmd[from..e][..e - from - 1] == cmd[from..e - 1];
      e := e - 1;
    }
  }

  /** command_parse_output up to the call of the command: pointers moving over the line. */
  method CommandParse(cmd: string) returns (line: Line)
    ensures line == Parsed(cmd)
  {
    assert cmd[0..] == cmd;
    var p := Skip(cmd, 0);
    var q := WordEnd(cmd, p);
    if q == |cmd| {
      return NoDelimiter;
    }
    assert cmd[p..][q - p + 1..] == cmd[q + 1..] && cmd[p..][..q - p] == cmd[p..q];
    var a := Skip(cmd, q + 1);
    var e := CutTrailing(cmd, a);
    line := Line(cmd[p..q], if a == e then None else Some(cmd[a..e]));
  }

  /** What the nexus sends to a node. */
  function Encoded(text: string): string { Subst("header " + text, '\n', '\\') }

  /** The sampling interval can be read: ascii_header_get does not report the end of the text.  A word
      that is no number passes. */
  predicate HasTsamp(text: string) { AsciiHeader.Get(text, "TSAMP").Some? }

  /** dada_pwc_cmd_header: the header kept by the client, if any. */
  function Decoded(args: Option<string>, size: nat): Option<string> {
    match args
    case None => None
    case Some(a) =>
      if |a| > size then None
      else
        var t := Subst(a, '\\', '\n');
        if !HasTsamp(t) then None
        else Some(if a != [] && t[|a| - 1] != '\n' && |a| + 1 < size then t + "\n" else t)
  }

  /** The header the client ends up with for a node header and what the line ends with. */
  function Received(text: string, tail: string, size: nat): Option<string> {
    match Parsed(Encoded(text) + tail)
    case Line(key, args) => if key == "header" then Decoded(args, size) else None
    case NoDelimiter => None
  }

  lemma SubstStops(t: string, w: string, p: int)
    requires AsciiHeader.Keyword(w)
    ensures AsciiHeader.Stops(Subst(t, '\n', '\\'), p, w) <==> AsciiHeader.Stops(t, p, w)
  {
    var e := Subst(t, '\n', '\\');
    assert '\\' !in w && '\n' !in w;
    if 0 <= p && p + |w| <= |t| {
      var x, y := t[p..p + |w|], e[p..p + |w|];
      assert forall i :: 0 <= i < |w| ==> x[i] == t[p + i] && y[i] == e[p + i];
      assert x == w ==> y == w;
      if y == w {
        assert forall i :: 0 <= i < |w| ==> x[i] == w[i];
      }
    }
  }

  /** A keyword is found at the same place in a header and in its encoded form: the search takes a
      backslash for the end of a line. */
  lemma SearchEncoded(t: string, w: string)
    requires AsciiHeader.Keyword(w)
    ensures AsciiHeader.Search(Subst(t, '\n', '\\'), w, 0) == AsciiHeader.Search(t, w, 0)
  {
    forall p: int ensures AsciiHeader.Stops(Subst(t, '\n', '\\'), p, w) <==> AsciiHeader.Stops(t, p, w) {
      SubstStops(t, w, p);
    }
    AsciiHeader.SearchFirst(t, w, 0);
    AsciiHeader.SearchUnique(Subst(t, '\n', '\\'), w, AsciiHeader.Search(t, w, 0));
  }

  lemma {:induction false} TrimTail(s: string, tail: string)
    requires s != [] && forall i :: 0 <= i < |tail| ==> IsSpace(tail[i])
    ensures TrimEnd(s + tail) == TrimEnd(s)
    decreases |tail|
  {
    if tail == [] {
      assert s + tail == s;
    } else {
      TrimTail(s, tail[..|tail| - 1]);
      assert (s + tail)[..|s + tail| - 1] == s + tail[..|tail| - 1];
    }
  }

  lemma {:induction false} TrimPrefix(s: string)
    ensures TrimEnd(s) <= s && (s != [] ==> TrimEnd(s) != [])
    ensures s != [] && !IsSpace(s[0]) ==> !IsSpace(TrimEnd(s)[|TrimEnd(s)| - 1])
  {
    if |s| > 1 && IsSpace(s[|s| - 1]) { TrimPrefix(s[..|s| - 1]); }
  }

  lemma {:induction false} SkipSuffix(s: string)
    ensures |SkipSpace(s)| <= |s| && (SkipSpace(s) != [] ==> !IsSpace(SkipSpace(s)[0]))
  {
    if s != [] && IsSpace(s[0]) { SkipSuffix(s[1..]); }
  }

  lemma WordIs(word: string, c: char, rest: string)
    requires IsSpace(c) && forall i :: 0 <= i < |word| ==> !IsSpace(word[i])
    ensures var s := word + [c] + rest; WordLength(s) == |word| && s[..|word|] == word && s[|word| + 1..] == rest
  {
    var s := word + [c] + rest;
    assert s[|word|] == c;
    assert forall i :: 0 <= i < |word| ==> s[i] == word[i];
  }

  ghost predicate AllSpaces(s: string) { forall i :: 0 <= i < |s| ==> s[i] in " \r\t\n" }

  lemma SpacesAre(s: string)
    requires AllSpaces(s)
    ensures forall i :: 0 <= i < |s| ==> IsSpace(s[i])
  {
  }

  lemma {:induction false} SkipAll(pre: string, s: string)
    requires forall i :: 0 <= i < |pre| ==> IsSpace(pre[i])
    ensures SkipSpace(pre + s) == SkipSpace(s)
  {
    if pre == [] {
      assert pre + s == s;
    } else {
      SkipAll(pre[1..], s);
      assert (pre + s)[1..] == pre[1..] + s;
    }
  }

  /** A command word: no white space in it. */
  ghost predicate Word(s: string) { s != [] && forall i :: 0 <= i < |s| ==> s[i] !in " \r\t\n" }

  lemma SkipToWord(pre: string, key: string, rest: string)
    requires AllSpaces(pre) && Word(key)
    ensures SkipSpace(pre + (key + rest)) == key + rest
  {
    SpacesAre(pre);
    SkipAll(pre, key + rest);
    assert (key + rest)[0] == key[0];
  }

  /** Any command line, from its parts: blanks, the command, a blank, more of them, and arguments that
      neither start nor end with one, then any white space. */
  lemma ParsedParts(pre: string, key: string, c: char, gap: string, args: string, post: string)
    requires AllSpaces(pre) && Word(key) && c in " \r\t\n" && AllSpaces(gap) && AllSpaces(post)
    requires args != [] ==> args[0] !in " \r\t\n" && args[|args| - 1] !in " \r\t\n"
    ensures args != [] ==> Parsed(pre + (key + [c] + (gap + (args + post)))) == Line(key, Some(args))
    ensures Parsed(pre + (key + [c] + gap)) == Line(key, None)
    ensures Parsed(pre + key) == NoDelimiter
  {
    if args != [] {
      SkipToWord(pre, key, [c] + (gap + (args + post)));
      Assoc(key, [c], gap + (args + post));
      WordIs(key, c, gap + (args + post));
      ArgsParsed(gap, args, post);
    }
    SkipToWord(pre, key, [c] + gap);
    Assoc(key, [c], gap);
    WordIs(key, c, gap);
    NoArgs(gap);
    SkipToWord(pre, key, "");
    assert key + "" == key && WordLength(key) == |key|;
  }

  lemma ArgsParsed(gap: string, args: string, post: string)
    requires args != [] && AllSpaces(gap) && AllSpaces(post)
    requires args[0] !in " \r\t\n" && args[|args| - 1] !in " \r\t\n"
    ensures TrimEnd(SkipSpace(gap + (args + post))) == args
  {
    SpacesAre(gap);
    SpacesAre(post);
    SkipAll(gap, args + post);
    assert (args + post)[0] == args[0];
    TrimTail(args, post);
  }

  lemma NoArgs(gap: string)
    requires AllSpaces(gap)
    ensures TrimEnd(SkipSpace(gap)) == ""
  {
    SpacesAre(gap);
    SkipAll(gap, "");
    assert gap + "" == gap;
  }

  /** The line splits into the command and the trimmed encoded header. */
  lemma Splits(text: string, tail: string)
    ensures var args := TrimEnd(SkipSpace(Subst(text, '\n', '\\') + tail));
            Parsed(Encoded(text) + tail) == Line("header", if args == [] then None else Some(args))
  {
    var e := Subst(text, '\n', '\\');
    var line := Encoded(text) + tail;
    assert line == "header" + [' '] + (e + tail);
    assert SkipSpace(line) == line;
    WordIs("header", ' ', e + tail);
  }

  /** No backslash and no blank at the start. */
  predicate Decent(text: string) {
    text != [] && '\\' !in text && text[0] != ' ' && text[0] != '\t' && text[0] != '\r'
  }

  predicate EndsBlank(text: string)
    requires text != []
  {
    var c := text[|text| - 1]; c == ' ' || c == '\t' || c == '\r'
  }

  /** Headers that survive: a newline at the end, or no room for one and nothing there to trim. */
  predicate Portable(text: string, size: nat) {
    && Decent(text) && |text| <= size
    && (text[|text| - 1] == '\n' || (!EndsBlank(text) && |text| + 1 >= size))
  }

  /** What the client keeps of a header: nothing when it is longer than the header block or has no TSAMP;
      otherwise the header, with a newline added when it has none and there is room. */
  lemma HeaderArrives(text: string, tail: string, size: nat)
    requires Decent(text) && !EndsBlank(text)
    requires forall i :: 0 <= i < |tail| ==> IsSpace(tail[i])
    ensures var t := if text[|text| - 1] != '\n' && |text| + 1 < size then text + "\n" else text;
            Received(text, tail, size) == if |text| <= size && HasTsamp(text) then Some(t) else None
  {
    var e := Subst(text, '\n', '\\');
    Splits(text, tail);
    assert (e + tail)[0] == e[0] && !IsSpace(e[0]);
    TrimTail(e, tail);
    assert !IsSpace(e[|e| - 1]) && TrimEnd(e) == e;
    assert Subst(e, '\\', '\n') == text;
  }

  lemma OnlyPortableArrives(text: string, tail: string, size: nat)
    requires Received(text, tail, size) == Some(text)
    ensures Portable(text, size)
  {
    Splits(text, tail);
    var skipped := SkipSpace(Subst(text, '\n', '\\') + tail);
    SkipSuffix(Subst(text, '\n', '\\') + tail);
    TrimPrefix(skipped);
    var args := TrimEnd(skipped);
    assert skipped != [] && !IsSpace(skipped[0]);
    assert args != [] && args[0] == skipped[0];
    OnlyPortableKept(text, args, size);
  }

  lemma OnlyPortableKept(text: string, args: string, size: nat)
    requires args != [] && !IsSpace(args[0]) && !IsSpace(args[|args| - 1])
    requires Decoded(Some(args), size) == Some(text)
    ensures Portable(text, size)
  {
    var t := Subst(args, '\\', '\n');
    assert text == t || text == t + "\n";
    assert text[0] == t[0] && '\\' !in t;
  }

  /** Which headers arrive as they were, whatever CR/LF or other white space ends the line: those with a
      TSAMP that fit, have no backslash, do not start with a blank, and end with a newline, or would if
      there was room. */
  lemma WireRoundTrip(text: string, tail: string, size: nat)
    requires forall i :: 0 <= i < |tail| ==> IsSpace(tail[i])
    ensures Received(text, tail, size) == Some(text) <==> Portable(text, size) && HasTsamp(text)
  {
    if Portable(text, size) { HeaderArrives(text, tail, size); }
    if Received(text, tail, size) == Some(text) { OnlyPortableArrives(text, tail, size); }
  }

  /** With the line endings of the nexus and of a terminal. */
  lemma WireLine(text: string, tail: string, size: nat)
    requires tail == "\n" || tail == "\r\n"
    ensures Received(text, tail, size) == Some(text) <==> Portable(text, size) && HasTsamp(text)
  {
    assert tail[0] == '\r' || tail[0] == '\n';
    assert |tail| == 2 ==> tail[1] == '\n';
    WireRoundTrip(text, tail, size);
  }
}
