/** The ASCII header: one string, edited in place, that has to behave as a map from keywords to
    values.  Strings are C strings without their final NUL. */
module AsciiHeader {
  import opened Common

  predicate IsBlank(c: char) { c == ' ' || c == '\t' }
  predicate IsSpace(c: char) { c == ' ' || c == '\t' || c == '\n' }

  /** isspace */
  predicate IsWhite(c: char) { IsSpace(c) || c == '\r' || c == '\U{000B}' || c == '\U{000C}' }

  // ---------------------------------------------------------------- searching

  predicate Match(t: string, p: int, w: string) { 0 <= p && p + |w| <= |t| && t[p..p + |w|] == w }

  predicate FollowedByBlank(t: string, p: int) { 0 <= p < |t| && IsBlank(t[p]) }

  /** A place where ascii_header_find may stop: the start of the header, or a match between a newline
      or backslash and a blank. */
  predicate Stops(t: string, p: int, w: string) {
    Match(t, p, w) &&
    (p == 0 || (p <= |t| && (t[p - 1] == '\n' || t[p - 1] == '\\') && FollowedByBlank(t, p + |w|)))
  }

  ghost predicate IsFirst(t: string, w: string, r: Option<nat>) {
    match r
    case None => forall p: nat :: !Stops(t, p, w)
    case Some(q) => Stops(t, q, w) && forall p: nat :: p < q ==> !Stops(t, p, w)
  }

  /** strstr, from `p` on. */
  method StrStr(t: string, w: string, from: nat) returns (r: Option<nat>)
    ensures match r
            case None => forall p: nat :: from <= p ==> !Match(t, p, w)
            case Some(q) => from <= q && Match(t, q, w) && forall p: nat :: from <= p < q ==> !Match(t, p, w)
  {
    var p := from;
    while p + |w| <= |t|
      invariant from <= p
      invariant forall q: nat :: from <= q < p ==> !Match(t, q, w)
    {
      if t[p..p + |w|] == w { return Some(p); }
      p := p + 1;
    }
    r := None;
  }

  method Find(t: string, w: string) returns (r: Option<nat>)
    requires w != []
    ensures IsFirst(t, w, r) && r == Search(t, w, 0)
  {
    r := StrStr(t, w, 0);
    while r.Some? && r.value > 0
      invariant r.Some? ==> Match(t, r.value, w)
      invariant forall p: nat :: (r.Some? ==> p < r.value) ==> !Stops(t, p, w)
      decreases if r.Some? then |t| + 1 - r.value else 0
    {
      var key := r.value;
      if (t[key - 1] == '\n' || t[key - 1] == '\\') && FollowedByBlank(t, key + |w|) {
        break;
      }
      r := StrStr(t, w, key + 1);
    }
    SearchUnique(t, w, r);
  }

  /** The first stopping place from `p` on. */
  function Search(t: string, w: string, p: nat): Option<nat>
    decreases |t| + 1 - p
  {
    if p > |t| then None else if Stops(t, p, w) then Some(p) else Search(t, w, p + 1)
  }

  lemma {:induction false} SearchFirst(t: string, w: string, p: nat)
    ensures match Search(t, w, p)
            case None => forall q: nat :: p <= q ==> !Stops(t, q, w)
            case Some(r) => p <= r && Stops(t, r, w) && forall q: nat :: p <= q < r ==> !Stops(t, q, w)
    decreases |t| + 1 - p
  {
    if p <= |t| && !Stops(t, p, w) { SearchFirst(t, w, p + 1); }
  }

  lemma SearchUnique(t: string, w: string, r: Option<nat>)
    requires IsFirst(t, w, r)
    ensures r == Search(t, w, 0)
  {
    SearchFirst(t, w, 0);
  }

  /** Length of the part of `s` before the first '#' or newline. */
  function ToComment(s: string): (n: nat)
    ensures n <= |s|
    ensures forall i :: 0 <= i < n ==> s[i] != '#' && s[i] != '\n'
    ensures n < |s| ==> s[n] == '#' || s[n] == '\n'
  {
    if s == [] || s[0] == '#' || s[0] == '\n' then 0 else 1 + ToComment(s[1..])
  }

  function ToNewline(s: string): (n: nat)
    ensures n <= |s|
    ensures forall i :: 0 <= i < n ==> s[i] != '\n'
    ensures n < |s| ==> s[n] == '\n'
  {
    if s == [] || s[0] == '\n' then 0 else 1 + ToNewline(s[1..])
  }

  function ToSpace(s: string): (n: nat)
    ensures n <= |s|
    ensures forall i :: 0 <= i < n ==> !IsSpace(s[i])
    ensures n < |s| ==> IsSpace(s[n])
  {
    if s == [] || IsSpace(s[0]) then 0 else 1 + ToSpace(s[1..])
  }

  function ToWhite(s: string): (n: nat)
    ensures n <= |s|
    ensures forall i :: 0 <= i < n ==> !IsWhite(s[i])
    ensures n < |s| ==> IsWhite(s[n])
  {
    if s == [] || IsWhite(s[0]) then 0 else 1 + ToWhite(s[1..])
  }

  /** sscanf "%s": skip white space, newlines included, then take what is not white space. */
  function Token(s: string): string {
    if s != [] && IsWhite(s[0]) then Token(s[1..]) else s[..ToWhite(s)]
  }

  function Spaces(n: int): (s: string)
    ensures |s| == (if n < 0 then 0 else n) && forall i :: 0 <= i < |s| ==> s[i] == ' '
  {
    if n <= 0 then "" else " " + Spaces(n - 1)
  }

  /** STRLEN, the size of the buffer for a formatted value with its NUL. */
  const VALUE_SIZE: nat := 4096

  /** vsnprintf keeps what fits. */
  function Clip(v: string): string { if |v| < VALUE_SIZE then v else v[..VALUE_SIZE - 1] }

  /** "%-12s %-20s   " */
  function Entry(w: string, v: string): string {
    w + Spaces(12 - |w|) + " " + Clip(v) + Spaces(20 - |Clip(v)|) + "   "
  }

  // ---------------------------------------------------------------- get, set, del

  function Get(t: string, w: string): Option<string> {
    match Search(t, w, 0)
    case None => None
    case Some(p) =>
      if p > |t| then None
      else
        var s := t[p..];
        var v := Token(s[ToSpace(s)..]);
        if v == [] then None else Some(v)
  }

  function MarkerAt(t: string, p: nat): Option<nat>
    ensures match MarkerAt(t, p)
            case None => forall q: nat :: p <= q ==> !Match(t, q, "DATA\n")
            case Some(q) => p <= q && Match(t, q, "DATA\n")
    decreases |t| + 1 - p
  {
    if p > |t| then None else if Match(t, p, "DATA\n") then Some(p) else MarkerAt(t, p + 1)
  }

  function Set(t: string, w: string, v: string): string {
    match Search(t, w, 0)
    case Some(p) =>
      if p > |t| then t else t[..p] + Entry(w, v) + t[p + ToComment(t[p..])..]
    case None =>
      match MarkerAt(t, 0)
      case Some(p) => t[..Min(p, |t|)] + Entry(w, v) + t[Min(p, |t|)..]
      case None => t + Entry(w, v) + "\n"
  }

  /** `beyond` is the C string that follows the header's NUL in memory: on a last line with no newline
      the source steps over that NUL and copies from there. */
  function Del(t: string, w: string, beyond: string): string {
    match Search(t, w, 0)
    case None => t
    case Some(p) =>
      if p > |t| then t
      else
        var rest := t[p..];
        var n := ToNewline(rest);
        t[..p] + (if n < |rest| then rest[n + 1..] else beyond)
  }

  /** A header buffer and the calls that edit it. */
  class Buffer {
    var text: string
    const size: nat            // bytes of the buffer, the final NUL included

    constructor (t: string, size: nat)
      ensures text == t && this.size == size
    {
      text, this.size := t, size;
    }

    /** `fits` is false when the new text goes past the end of the buffer, which nothing prevents. */
    method HeaderSet(w: string, v: string) returns (fits: bool)
      requires w != []
      modifies this
      ensures text == Set(old(text), w, v)
      ensures fits <==> |text| < size
    {
      var key := Find(text, w);
      var eol := None;
      if key.Some? {
        eol := Some(key.value + ToComment(text[key.value..]));
      } else {
        eol := MarkerAt(text, 0);
        key := if eol.Some? then eol else Some(|text|);
      }
      var dup := if eol.Some? then text[eol.value..] else "\n";
      text := text[..key.value] + Entry(w, v) + dup;
      fits := |text| < size;
    }

    method HeaderGet(w: string) returns (v: Option<string>)
      requires w != []
      ensures v == Get(text, w)
    {
      var key := Find(text, w);
      if key.None? { return None; }
      var s := text[key.value..];
      var token := Token(s[ToSpace(s)..]);
      v := if token == [] then None else Some(token);
    }

    method HeaderDel(w: string, beyond: string) returns (ok: bool)
      requires w != []
      modifies this
      ensures text == Del(old(text), w, beyond) && ok == Search(old(text), w, 0).Some?
    {
      var key := Find(text, w);
      ok := key.Some?;
      if ok {
        var s := text[key.value..];
        var n := ToNewline(s);
        var dup := if n < |s| then s[n + 1..] else beyond;
        text := text[..key.value] + dup;
      }
    }
  }

  // ---------------------------------------------------------------- headers as lists of lines

  /** A line: no newline, and no backslash, which the search takes for one. */
  predicate PlainLine(l: string) { '\n' !in l && '\\' !in l }

  ghost predicate Plain(ls: seq<string>) { forall i :: 0 <= i < |ls| ==> PlainLine(ls[i]) }

  function Text(ls: seq<string>): string {
    if ls == [] then "" else ls[0] + "\n" + Text(ls[1..])
  }

  /** The line defines the keyword: keyword, then a blank. */
  predicate Has(l: string, w: string) { |w| < |l| && l[..|w|] == w && (l[|w|] == ' ' || l[|w|] == '\t') }

  /** A keyword: not empty, no white space, no '#', no backslash. */
  predicate Keyword(w: string) {
    w != [] && '#' !in w && '\\' !in w && forall i :: 0 <= i < |w| ==> !IsWhite(w[i])
  }

  predicate Value(v: string) {
    v != [] && |v| < VALUE_SIZE && '#' !in v && '\\' !in v && forall i :: 0 <= i < |v| ==> !IsWhite(v[i])
  }

  /** Index of the first line that defines the keyword, or the number of lines. */
  function LineOf(ls: seq<string>, w: string): (n: nat)
    ensures n <= |ls| && (n < |ls| ==> Has(ls[n], w))
    ensures forall i :: 0 <= i < n ==> !Has(ls[i], w)
  {
    if ls == [] || Has(ls[0], w) then 0 else 1 + LineOf(ls[1..], w)
  }

  /** The first word of the header is not a proper extension of the keyword.  The search does not
      look at what follows a match at the very start. */
  predicate StartsFair(ls: seq<string>, w: string) {
    Match(Text(ls), 0, w) ==> ls != [] && Has(ls[0], w)
  }

  /** The value on a line that defines the keyword. */
  function LineValue(l: string, w: string): string
    requires Has(l, w)
  {
    Token(l[|w|..])
  }

  function NewLine(l: string, w: string, v: string): string { Entry(w, v) + l[ToComment(l)..] }

  lemma {:induction false} TextAppend(a: seq<string>, b: seq<string>)
    ensures Text(a + b) == Text(a) + Text(b)
  {
    if a == [] {
      assert a + b == b;
    } else {
      TextAppend(a[1..], b);
      Assoc(a[0] + "\n", Text(a[1..]), Text(b));
      assert (a + b)[1..] == a[1..] + b;
    }
  }

  lemma TextSplit(ls: seq<string>, n: nat)
    requires n < |ls|
    ensures Text(ls) == Text(ls[..n]) + (ls[n] + "\n" + Text(ls[n + 1..]))
  {
    assert ls == ls[..n] + ls[n..];
    TextAppend(ls[..n], ls[n..]);
    assert ls[n..][1..] == ls[n + 1..];
  }

  lemma {:induction false} TextPlain(ls: seq<string>)
    requires Plain(ls)
    ensures '\\' !in Text(ls)
    ensures Text(ls) == "" || Text(ls)[|Text(ls)| - 1] == '\n'
  {
    if ls != [] { TextPlain(ls[1..]); }
  }

  /** A keyword followed by a blank, at the start of a line. */
  predicate Defines(t: string, p: int, w: string) {
    Match(t, p, w) && FollowedByBlank(t, p + |w|) && (p == 0 || (p <= |t| && t[p - 1] == '\n'))
  }

  lemma DefinesAtStart(l: string, rest: string, w: string)
    requires PlainLine(l) && Keyword(w)
    ensures Defines(l + "\n" + rest, 0, w) <==> Has(l, w)
  {
    var t := l + "\n" + rest;
    assert t[|l|] == '\n' && forall i :: 0 <= i < |l| ==> t[i] == l[i];
    assert Match(t, 0, w) ==> forall i :: 0 <= i < |w| ==> t[i] == t[0..|w|][i] == w[i];
    assert |w| <= |l| ==> t[0..|w|] == l[..|w|];
  }

  lemma DefinesLater(l: string, rest: string, p: int, w: string)
    requires PlainLine(l) && Keyword(w) && p > 0
    ensures Defines(l + "\n" + rest, p, w) <==> p > |l| && Defines(rest, p - |l| - 1, w)
  {
    var t := l + "\n" + rest;
    if p > |l| {
      var q := p - |l| - 1;
      assert p + |w| <= |t| ==> t[p..p + |w|] == rest[q..q + |w|];
    }
  }

  /** A line that has the keyword defines it where the line starts. */
  lemma LineDefines(ls: seq<string>, n: nat, w: string)
    requires Plain(ls) && Keyword(w) && n < |ls| && Has(ls[n], w)
    ensures Defines(Text(ls), |Text(ls[..n])|, w)
  {
    var before, l, rest := Text(ls[..n]), ls[n], Text(ls[n + 1..]);
    TextSplit(ls, n);
    TextPlain(ls[..n]);
    var t, p := before + (l + "\n" + rest), |before|;
    assert t[p..p + |w|] == l[..|w|] && t[p + |w|] == l[|w|];
    assert p > 0 ==> t[p - 1] == before[p - 1];
  }

  /** A definition in the text is the start of a line that has the keyword. */
  lemma {:induction false} DefinedLine(ls: seq<string>, p: nat, w: string) returns (n: nat)
    requires Plain(ls) && Keyword(w) && Defines(Text(ls), p, w)
    ensures n < |ls| && p == |Text(ls[..n])| && Has(ls[n], w)
    decreases |ls|
  {
    var l, rest := ls[0], ls[1..];
    if p == 0 {
      DefinesAtStart(l, Text(rest), w);
      n := 0;
    } else {
      DefinesLater(l, Text(rest), p, w);
      n := DefinedLine(rest, p - |l| - 1, w);
      assert ls[..n + 1][1..] == rest[..n];
      n := n + 1;
    }
  }

  lemma {:induction false} TextGrows(ls: seq<string>, a: nat, b: nat)
    requires a < b <= |ls|
    ensures |Text(ls[..a])| < |Text(ls[..b])|
  {
    assert ls[..b] == ls[..a] + ls[a..b];
    TextAppend(ls[..a], ls[a..b]);
  }

  /** The search finds the first line that has the keyword, and nothing else. */
  lemma SearchIsLine(ls: seq<string>, w: string)
    requires Plain(ls) && Keyword(w) && StartsFair(ls, w)
    ensures var n := LineOf(ls, w);
            Search(Text(ls), w, 0) == if n < |ls| then Some(|Text(ls[..n])|) else None
  {
    var t, n := Text(ls), LineOf(ls, w);
    TextPlain(ls);
    forall p: nat ensures Stops(t, p, w) <==> Defines(t, p, w) {
      if p == 0 && Match(t, 0, w) {
        TextSplit(ls, 0);
        DefinesAtStart(ls[0], Text(ls[1..]), w);
        assert Text(ls[..0]) == "";
      }
    }
    var r := if n < |ls| then Some(|Text(ls[..n])|) else None;
    if n < |ls| { LineDefines(ls, n, w); }
    forall p: nat | Stops(t, p, w) ensures r.Some? && r.value <= p {
      var m := DefinedLine(ls, p, w);
      if n < m { TextGrows(ls, n, m); }
    }
    assert IsFirst(t, w, r);
    SearchUnique(t, w, r);
  }

  // ---------------------------------------------------------------- set

  lemma ToCommentLine(l: string, rest: string)
    requires PlainLine(l)
    ensures ToComment(l + "\n" + rest) == ToComment(l)
  {
    var t := l + "\n" + rest;
    var a, b := ToComment(t), ToComment(l);
    assert forall i :: 0 <= i < |l| ==> t[i] == l[i];
    assert t[|l|] == '\n';
  }

  /** The header has no line ending in DATA: the text "DATA" and a newline is taken for the marker
      that ends the header, wherever it stands. */
  predicate NoMarker(ls: seq<string>) { MarkerAt(Text(ls), 0).None? }

  function SetLines(ls: seq<string>, w: string, v: string): seq<string> {
    var n := LineOf(ls, w);
    if n < |ls| then ls[n := NewLine(ls[n], w, v)] else ls + [Entry(w, v)]
  }

  lemma Splice(before: string, l: string, rest: string, e: string, k: nat)
    requires k <= |l|
    ensures var t, p := before + (l + "\n" + rest), |before|;
      t[..p] + e + t[p + k..] == before + (e + l[k..] + "\n" + rest)
  {
    var t, p := before + (l + "\n" + rest), |before|;
    assert t[..p] == before;
    assert t[p + k..] == l[k..] + "\n" + rest;
  }

  lemma RewriteIsLine(ls: seq<string>, n: nat, w: string, v: string)
    requires Plain(ls) && n < |ls|
    ensures var t, p := Text(ls), |Text(ls[..n])|;
      p <= |t| && p + ToComment(t[p..]) <= |t| &&
      t[..p] + Entry(w, v) + t[p + ToComment(t[p..])..] == Text(ls[n := NewLine(ls[n], w, v)])
  {
    var before, l, rest := Text(ls[..n]), ls[n], Text(ls[n + 1..]);
    var ms := ls[n := NewLine(ls[n], w, v)];
    TextSplit(ls, n);
    ToCommentLine(l, rest);
    Apart(before, l + "\n" + rest);
    Splice(before, l, rest, Entry(w, v), ToComment(l));
    TextSplit(ms, n);
    assert ms[..n] == ls[..n] && ms[n + 1..] == ls[n + 1..];
  }

  /** Setting rewrites the line of the keyword up to its comment, or adds a line at the end. */
  lemma SetIsLine(ls: seq<string>, w: string, v: string)
    requires Plain(ls) && Keyword(w) && StartsFair(ls, w)
    requires LineOf(ls, w) < |ls| || NoMarker(ls)
    ensures Set(Text(ls), w, v) == Text(SetLines(ls, w, v))
  {
    SearchIsLine(ls, w);
    if LineOf(ls, w) < |ls| {
      RewriteIsLine(ls, LineOf(ls, w), w, v);
    } else {
      TextAppend(ls, [Entry(w, v)]);
      assert [Entry(w, v)][1..] == [];
      assert Text(ls) + (Entry(w, v) + "\n" + "") == Text(ls) + Entry(w, v) + "\n";
    }
  }

  /** The header's text after setting a keyword: the rest of its line from the comment on is kept, or the
      entry is the new last line. */
  lemma SetText(ls: seq<string>, w: string, v: string)
    requires Plain(ls) && Keyword(w) && StartsFair(ls, w)
    requires LineOf(ls, w) < |ls| || NoMarker(ls)
    ensures var n, t := LineOf(ls, w), Set(Text(ls), w, v);
      if n == |ls| then t == Text(ls) + Entry(w, v) + "\n"
      else t == Text(ls[..n]) + (Entry(w, v) + ls[n][ToComment(ls[n])..] + "\n" + Text(ls[n + 1..]))
  {
    SetIsLine(ls, w, v);
    var n, ms := LineOf(ls, w), SetLines(ls, w, v);
    if n == |ls| {
      OneLine(Entry(w, v), Entry(w, v) + "\n");
      TextAppend(ls, [Entry(w, v)]);
      Assoc(Text(ls), Entry(w, v), "\n");
    } else {
      TextSplit(ms, n);
      assert ms[..n] == ls[..n] && ms[n + 1..] == ls[n + 1..];
    }
  }

  /** The columns of a line set: the keyword from column 0 in at least 12, a blank, the value in at least
      20, three blanks; of the value, the first 4095 characters. */
  lemma EntryColumns(w: string, v: string)
    ensures var e, c, x := Entry(w, v), (if |w| < 12 then 13 else |w| + 1), if |v| < 4096 then v else v[..4095];
      && |e| == c + (if |x| < 20 then 23 else |x| + 3)
      && e[..|w|] == w && e[c..c + |x|] == x
      && (forall i :: |w| <= i < c || c + |x| <= i < |e| ==> e[i] == ' ')
  {
    var x, pad, after := Clip(v), Spaces(12 - |w|) + " ", Spaces(20 - |Clip(v)|) + "   ";
    assert Entry(w, v) == w + pad + x + after;
    Columns(w, pad, x, after);
  }

  lemma Columns(w: string, pad: string, x: string, after: string)
    requires forall i :: 0 <= i < |pad| ==> pad[i] == ' '
    requires forall i :: 0 <= i < |after| ==> after[i] == ' '
    ensures var e, c := w + pad + x + after, |w| + |pad|;
      && e[..|w|] == w && e[c..c + |x|] == x
      && (forall i :: |w| <= i < c || c + |x| <= i < |e| ==> e[i] == ' ')
  {
  }

  lemma EntryValue(w: string, v: string, tail: string)
    requires Keyword(w) && Value(v)
    ensures Has(Entry(w, v) + tail, w) && LineValue(Entry(w, v) + tail, w) == v
  {
    var l := Entry(w, v) + tail;
    var pad, after := Spaces(12 - |w|) + " ", Spaces(20 - |v|) + "   " + tail;
    assert l == w + (pad + (v + after));
    assert l[..|w|] == w && l[|w|..] == pad + (v + after);
    assert l[|w|] == pad[0] == ' ';
    TokenSkips(pad, v + after);
    assert after[0] == ' ';
    TokenIs(v, after);
  }

  lemma EntryPlain(w: string, v: string)
    requires Keyword(w) && Value(v)
    ensures PlainLine(Entry(w, v)) && '#' !in Entry(w, v)
  {
  }

  lemma EntryHas(w: string, v: string, tail: string)
    requires Keyword(w) && Value(v)
    ensures Has(Entry(w, v) + tail, w) && LineValue(Entry(w, v) + tail, w) == v
    ensures ToComment(Entry(w, v) + tail) == |Entry(w, v)| + ToComment(tail)
    ensures PlainLine(Entry(w, v))
  {
    EntryValue(w, v, tail);
    EntryPlain(w, v);
    CommentAfter(Entry(w, v), tail);
  }

  lemma {:induction false} TokenSkips(pad: string, s: string)
    requires forall i :: 0 <= i < |pad| ==> IsWhite(pad[i])
    ensures Token(pad + s) == Token(s)
  {
    if pad == [] {
      assert pad + s == s;
    } else {
      TokenSkips(pad[1..], s);
      assert (pad + s)[1..] == pad[1..] + s;
    }
  }

  lemma TokenIs(v: string, after: string)
    requires v != [] && after != [] && IsWhite(after[0]) && forall i :: 0 <= i < |v| ==> !IsWhite(v[i])
    ensures Token(v + after) == v
  {
    var s := v + after;
    assert s[|v|] == after[0];
    assert forall i :: 0 <= i < |v| ==> s[i] == v[i];
    assert ToWhite(s) == |v|;
  }

  lemma {:induction false} CommentAfter(a: string, b: string)
    requires '#' !in a && '\n' !in a
    ensures ToComment(a + b) == |a| + ToComment(b)
  {
    if a == [] {
      assert a + b == b;
    } else {
      CommentAfter(a[1..], b);
      assert (a + b)[1..] == a[1..] + b;
    }
  }

  // ---------------------------------------------------------------- get

  /** The value is on the line: the search for a token does not run into the next line. */
  predicate HasValue(l: string, w: string) { Has(l, w) && LineValue(l, w) != [] }

  lemma {:induction false} TokenOnLine(s: string, rest: string)
    requires Token(s) != []
    ensures Token(s + "\n" + rest) == Token(s)
  {
    var t := s + "\n" + rest;
    if s != [] && IsWhite(s[0]) {
      TokenOnLine(s[1..], rest);
      assert t[1..] == s[1..] + "\n" + rest;
    } else {
      var n := ToWhite(s);
      assert t[|s|] == '\n' && forall i :: 0 <= i < |s| ==> t[i] == s[i];
      assert ToWhite(t) == n;
    }
  }

  lemma ValueAt(l: string, rest: string, w: string)
    requires Keyword(w) && HasValue(l, w)
    ensures var s := l + "\n" + rest; Token(s[ToSpace(s)..]) == LineValue(l, w)
  {
    var s := l + "\n" + rest;
    assert forall i :: 0 <= i < |w| ==> s[i] == l[..|w|][i];
    assert s[|w|] == l[|w|];
    assert ToSpace(s) == |w|;
    assert s[|w|..] == l[|w|..] + "\n" + rest;
    TokenOnLine(l[|w|..], rest);
  }

  /** A keyword's first line and what getting reads there: the first word behind the keyword, which is
      the first word of a later line when nothing follows on its own. */
  function ReadValue(ls: seq<string>, n: nat, w: string): Option<string>
    requires n < |ls| && Has(ls[n], w)
  {
    var v := if HasValue(ls[n], w) then LineValue(ls[n], w) else Token(Text(ls[n + 1..]));
    if v == "" then None else Some(v)
  }

  lemma {:induction false} NoToken(s: string)
    requires Token(s) == ""
    ensures forall i :: 0 <= i < |s| ==> IsWhite(s[i])
  {
    if s != [] { NoToken(s[1..]); }
  }

  lemma TokenBehind(l: string, rest: string, w: string)
    requires Keyword(w) && Has(l, w) && !HasValue(l, w)
    ensures var s := l + "\n" + rest; Token(s[ToSpace(s)..]) == Token(rest)
  {
    var s, blank := l + "\n" + rest, l[|w|..];
    assert forall i :: 0 <= i < |w| ==> s[i] == l[..|w|][i];
    assert s[|w|] == l[|w|];
    assert ToSpace(s) == |w|;
    NoToken(blank);
    TokenSkips(blank + "\n", rest);
    assert s[|w|..] == (blank + "\n") + rest;
  }

  lemma GetAt(before: string, s: string, w: string)
    requires Search(before + s, w, 0) == Some(|before|)
    ensures var v := Token(s[ToSpace(s)..]); Get(before + s, w) == if v == "" then None else Some(v)
  {
    Apart(before, s);
  }

  lemma WordBehind(ls: seq<string>, n: nat, w: string)
    requires Keyword(w) && n < |ls| && Has(ls[n], w)
    ensures var s := ls[n] + "\n" + Text(ls[n + 1..]); var v := Token(s[ToSpace(s)..]);
      ReadValue(ls, n, w) == if v == "" then None else Some(v)
  {
    if HasValue(ls[n], w) {
      ValueAt(ls[n], Text(ls[n + 1..]), w);
    } else {
      TokenBehind(ls[n], Text(ls[n + 1..]), w);
    }
  }

  /** Getting finds the first line of the keyword, and reads the first word behind it. */
  lemma GetIsLine(ls: seq<string>, w: string)
    requires Plain(ls) && Keyword(w) && StartsFair(ls, w)
    ensures var n := LineOf(ls, w);
            Get(Text(ls), w) == if n < |ls| then ReadValue(ls, n, w) else None
  {
    var n := LineOf(ls, w);
    SearchIsLine(ls, w);
    if n < |ls| {
      TextSplit(ls, n);
      GetAt(Text(ls[..n]), ls[n] + "\n" + Text(ls[n + 1..]), w);
      WordBehind(ls, n, w);
    }
  }

  /** A keyword with nothing behind it is given the first word of the next line for its value, which is
      the next keyword. */
  lemma NextKeywordRead(ls: seq<string>, w: string, u: string, x: string)
    requires Plain(ls) && Keyword(w) && StartsFair(ls, w) && Keyword(u)
    requires LineOf(ls, w) + 1 < |ls| && ls[LineOf(ls, w)] == w + " " && ls[LineOf(ls, w) + 1] == u + " " + x
    ensures Get(Text(ls), w) == Some(u)
  {
    var n := LineOf(ls, w);
    GetIsLine(ls, w);
    BlankLine(w);
    TextStarts(ls[n + 1..], u, x);
  }

  lemma BlankLine(w: string)
    ensures (w + " ")[|w|..] == " " && Token((w + " ")[|w|..]) == ""
  {
    assert Token(" ") == Token(" "[1..]) == "";
  }

  lemma TextStarts(ls: seq<string>, u: string, x: string)
    requires ls != [] && ls[0] == u + " " + x && Keyword(u)
    ensures Token(Text(ls)) == u
  {
    var after := " " + x + "\n" + Text(ls[1..]);
    assert Text(ls) == u + after && after[0] == ' ';
    TokenIs(u, after);
  }

  /** A value on the keyword's own line. */
  lemma GetOwnValue(ls: seq<string>, w: string)
    requires Plain(ls) && Keyword(w) && StartsFair(ls, w)
    requires LineOf(ls, w) < |ls| ==> HasValue(ls[LineOf(ls, w)], w)
    ensures var n := LineOf(ls, w);
            Get(Text(ls), w) == if n < |ls| then Some(LineValue(ls[n], w)) else None
  {
    GetIsLine(ls, w);
  }

  // ---------------------------------------------------------------- the header is a map

  /** What the map laws ask of a header and two keywords. */
  ghost predicate Fair(ls: seq<string>, w: string, v: string) {
    && Plain(ls) && Keyword(w) && Value(v) && StartsFair(ls, w)
    && (LineOf(ls, w) < |ls| || NoMarker(ls))
  }

  /** A keyword at the start of a line goes no further than the first blank. */
  lemma PrefixStops(w: string, rest: string, u: string)
    requires Keyword(u) && u <= w + rest && rest != [] && IsSpace(rest[0])
    ensures u <= w
  {
    var l := w + rest;
    assert l[|w|] == rest[0];
    assert forall i :: 0 <= i < |u| ==> u[i] == l[i];
    assert forall i :: 0 <= i < |w| ==> l[i] == w[i];
  }

  lemma EntryStarts(w: string, v: string, tail: string, u: string)
    requires Keyword(w) && Value(v) && Keyword(u) && u <= Entry(w, v) + tail
    ensures u <= w
  {
    var pad := Spaces(12 - |w|) + " ";
    var rest := pad + v + Spaces(20 - |v|) + "   " + tail;
    assert Entry(w, v) + tail == w + rest;
    assert rest[0] == pad[0] == ' ';
    PrefixStops(w, rest, u);
  }

  lemma FirstLine(ls: seq<string>, u: string)
    requires Keyword(u) && ls != [] && Match(Text(ls), 0, u)
    ensures u <= ls[0]
  {
    UPrefixOfLine(ls[0], Text(ls[1..]), u);
  }

  lemma FirstLineKept(ls: seq<string>, ms: seq<string>, u: string)
    requires Keyword(u) && StartsFair(ls, u) && ls != [] && ms != [] && ms[0] == ls[0]
    ensures StartsFair(ms, u)
  {
    if Match(Text(ms), 0, u) {
      FirstLine(ms, u);
      var t, l := Text(ls), ls[0];
      assert t == l + "\n" + Text(ls[1..]);
      assert t[0..|u|] == l[..|u|];
    }
  }

  lemma FirstLineSet(ms: seq<string>, w: string, v: string, tail: string, u: string)
    requires Keyword(w) && Value(v) && Keyword(u) && (u <= w ==> u == w)
    requires ms != [] && ms[0] == Entry(w, v) + tail
    ensures StartsFair(ms, u)
  {
    if Match(Text(ms), 0, u) {
      FirstLine(ms, u);
      EntryStarts(w, v, tail, u);
      EntryHas(w, v, tail);
    }
  }

  lemma SetKeepsPlain(ls: seq<string>, w: string, v: string)
    requires Plain(ls) && Keyword(w) && Value(v)
    ensures Plain(SetLines(ls, w, v))
  {
    EntryPlain(w, v);
  }

  /** Setting keeps the lines plain, and keeps the search fair to any keyword that is not a proper
      prefix of the one set, or to any at all when the first line is not the one set. */
  lemma SetKeepsFair(ls: seq<string>, w: string, v: string, u: string)
    requires Fair(ls, w, v) && Keyword(u) && StartsFair(ls, u)
    requires LineOf(ls, w) == 0 && u <= w ==> u == w
    ensures Plain(SetLines(ls, w, v)) && StartsFair(SetLines(ls, w, v), u)
  {
    var ms, n := SetLines(ls, w, v), LineOf(ls, w);
    SetKeepsPlain(ls, w, v);
    if n > 0 {
      FirstLineKept(ls, ms, u);
    } else {
      var tail := if ls == [] then "" else ls[0][ToComment(ls[0])..];
      assert ms[0] == Entry(w, v) + tail;
      FirstLineSet(ms, w, v, tail, u);
    }
  }

  lemma UPrefixOfLine(l: string, rest: string, u: string)
    requires Keyword(u) && Match(l + "\n" + rest, 0, u)
    ensures u <= l
  {
    var t := l + "\n" + rest;
    assert t == l + ("\n" + rest) && t[0..|u|] == u;
    PrefixStops(l, "\n" + rest, u);
  }

  lemma SetLineOf(ls: seq<string>, w: string, v: string, u: string)
    requires Fair(ls, w, v) && Keyword(u)
    ensures u == w ==> LineOf(SetLines(ls, w, v), u) == LineOf(ls, w)
    ensures u != w ==> (if LineOf(ls, u) < |ls| then LineOf(SetLines(ls, w, v), u) == LineOf(ls, u)
                        else LineOf(SetLines(ls, w, v), u) == |SetLines(ls, w, v)|)
  {
    var ms, n := SetLines(ls, w, v), LineOf(ls, w);
    var tail := if n < |ls| then ls[n][ToComment(ls[n])..] else "";
    assert ms[n] == Entry(w, v) + tail;
    EntryHas(w, v, tail);
    if u != w {
      if Has(ms[n], u) {
        EntryStarts(w, v, tail, u);
        HasOne(ms[n], u, w);
      }
      if n < |ls| && Has(ls[n], u) { HasOne(ls[n], u, w); }
      assert !Has(ms[n], u);
    }
    var a := LineOf(ms, u);
    assert forall i :: 0 <= i < |ls| && i != n ==> ms[i] == ls[i];
  }

  /** A line defines one keyword. */
  lemma HasOne(l: string, u: string, w: string)
    requires Keyword(u) && Keyword(w) && Has(l, u) && Has(l, w)
    ensures u == w
  {
    assert forall i :: 0 <= i < |u| ==> u[i] == l[..|u|][i] == l[i];
    assert forall i :: 0 <= i < |w| ==> w[i] == l[..|w|][i] == l[i];
    assert |u| == |w|;
  }

  /** After setting a keyword, it has that value. */
  lemma GetAfterSet(ls: seq<string>, w: string, v: string)
    requires Fair(ls, w, v)
    ensures Get(Set(Text(ls), w, v), w) == Some(v)
  {
    var ms, n := SetLines(ls, w, v), LineOf(ls, w);
    SetIsLine(ls, w, v);
    SetKeepsFair(ls, w, v, w);
    SetLineOf(ls, w, v, w);
    var tail := if n < |ls| then ls[n][ToComment(ls[n])..] else "";
    assert ms[n] == Entry(w, v) + tail;
    EntryHas(w, v, tail);
    GetOwnValue(ms, w);
  }

  /** Setting a keyword leaves the value of every other one alone. */
  lemma GetOtherAfterSet(ls: seq<string>, w: string, v: string, u: string)
    requires Fair(ls, w, v) && Keyword(u) && StartsFair(ls, u) && u != w
    requires LineOf(ls, w) == 0 ==> !(u <= w)
    requires LineOf(ls, u) < |ls| ==> HasValue(ls[LineOf(ls, u)], u)
    ensures Get(Set(Text(ls), w, v), u) == Get(Text(ls), u)
  {
    SetIsLine(ls, w, v);
    SetKeepsFair(ls, w, v, u);
    SetLineOf(ls, w, v, u);
    var m := LineOf(ls, u);
    if m < |ls| && m == LineOf(ls, w) { HasOne(ls[m], u, w); }
    GetOwnValue(ls, u);
    GetOwnValue(SetLines(ls, w, v), u);
  }

  /** Setting twice is setting once. */
  lemma SetIdempotent(ls: seq<string>, w: string, v: string)
    requires Fair(ls, w, v)
    ensures Set(Set(Text(ls), w, v), w, v) == Set(Text(ls), w, v)
  {
    var ms, n := SetLines(ls, w, v), LineOf(ls, w);
    SetIsLine(ls, w, v);
    SetKeepsFair(ls, w, v, w);
    SetLineOf(ls, w, v, w);
    SetIsLine(ms, w, v);
    var tail := if n < |ls| then ls[n][ToComment(ls[n])..] else "";
    assert ms[n] == Entry(w, v) + tail;
    EntryHas(w, v, tail);
    assert ToComment(tail) == 0;
    assert ms[n][|Entry(w, v)|..] == tail;
    assert NewLine(ms[n], w, v) == ms[n];
    assert ms[n := ms[n]] == ms;
  }

  lemma ToNewlineLine(l: string, rest: string)
    requires PlainLine(l)
    ensures ToNewline(l + "\n" + rest) == |l|
  {
    var t := l + "\n" + rest;
    assert t[|l|] == '\n' && forall i :: 0 <= i < |l| ==> t[i] == l[i];
  }

  lemma CutLine(before: string, l: string, rest: string)
    requires PlainLine(l)
    ensures var t, p := before + (l + "\n" + rest), |before|;
      var n := ToNewline(t[p..]); n < |t[p..]| && t[..p] + t[p..][n + 1..] == before + rest
  {
    var t, p := before + (l + "\n" + rest), |before|;
    Apart(before, l + "\n" + rest);
    ToNewlineLine(l, rest);
    assert t[p..][|l| + 1..] == rest;
  }

  function Without(ls: seq<string>, n: nat): seq<string>
    requires n < |ls|
  {
    ls[..n] + ls[n + 1..]
  }

  lemma DelAt(t: string, w: string, before: string, l: string, rest: string, beyond: string)
    requires t == before + (l + "\n" + rest) && PlainLine(l) && Search(t, w, 0) == Some(|before|)
    ensures Del(t, w, beyond) == before + rest
  {
    CutLine(before, l, rest);
  }

  lemma DelLine(ls: seq<string>, n: nat, w: string, beyond: string)
    requires n < |ls| && PlainLine(ls[n]) && Search(Text(ls), w, 0) == Some(|Text(ls[..n])|)
    ensures Del(Text(ls), w, beyond) == Text(Without(ls, n))
  {
    TextSplit(ls, n);
    DelAt(Text(ls), w, Text(ls[..n]), ls[n], Text(ls[n + 1..]), beyond);
    TextAppend(ls[..n], ls[n + 1..]);
  }

  /** Deleting removes exactly the first line of the keyword, or nothing. */
  lemma DelIsLine(ls: seq<string>, w: string, beyond: string)
    requires Plain(ls) && Keyword(w) && StartsFair(ls, w)
    ensures var n := LineOf(ls, w);
            Del(Text(ls), w, beyond) == Text(if n < |ls| then Without(ls, n) else ls)
  {
    var n := LineOf(ls, w);
    SearchIsLine(ls, w);
    if n < |ls| { DelLine(ls, n, w, beyond); }
  }

  /** The result depends on what lies behind the header exactly when the keyword's line is the last
      one and has no newline. */
  lemma DelStaysInside(t: string, w: string, x: string, y: string)
    requires x != y
    ensures Del(t, w, x) == Del(t, w, y) <==>
            (match Search(t, w, 0) case None => true case Some(p) => p > |t| || '\n' in t[p..])
  {
    match Search(t, w, 0)
    case None =>
    case Some(p) =>
      if p <= |t| {
        var rest := t[p..];
        var n := ToNewline(rest);
        assert '\n' in rest <==> n < |rest|;
        Apart(t[..p], x);
        Apart(t[..p], y);
      }
  }

  lemma WithoutLines(ls: seq<string>, n: nat, w: string)
    requires n < |ls| && Plain(ls)
    ensures Plain(Without(ls, n))
    ensures n == LineOf(ls, w) && (forall i :: n < i < |ls| ==> !Has(ls[i], w)) ==>
              LineOf(Without(ls, n), w) == |ls| - 1
  {
    var ms := Without(ls, n);
    assert forall i :: 0 <= i < |ms| ==> ms[i] == if i < n then ls[i] else ls[i + 1];
  }

  lemma DelLineOf(ls: seq<string>, n: nat, u: string)
    requires n < |ls| && !Has(ls[n], u)
    ensures var ms, m := Without(ls, n), LineOf(ls, u);
      LineOf(ms, u) == if m < n then m else m - 1
  {
    var ms, m := Without(ls, n), LineOf(ls, u);
    var k := LineOf(ms, u);
    assert forall i :: 0 <= i < |ms| ==> ms[i] == if i < n then ls[i] else ls[i + 1];
    assert k < |ms| ==> m <= (if k < n then k else k + 1);
    assert m < |ls| ==> ms[if m < n then m else m - 1] == ls[m];
  }

  /** Deleting leaves the other keywords' values alone. */
  lemma GetOtherAfterDel(ls: seq<string>, w: string, u: string, beyond: string)
    requires Plain(ls) && Keyword(w) && StartsFair(ls, w) && LineOf(ls, w) < |ls|
    requires Keyword(u) && StartsFair(ls, u) && u != w
    requires StartsFair(Without(ls, LineOf(ls, w)), u)
    requires LineOf(ls, u) < |ls| ==> HasValue(ls[LineOf(ls, u)], u)
    ensures Get(Del(Text(ls), w, beyond), u) == Get(Text(ls), u)
  {
    var n, m := LineOf(ls, w), LineOf(ls, u);
    var ms := Without(ls, n);
    DelIsLine(ls, w, beyond);
    WithoutLines(ls, n, u);
    if Has(ls[n], u) { HasOne(ls[n], u, w); }
    DelLineOf(ls, n, u);
    var k := LineOf(ms, u);
    assert m < |ls| ==> ms[k] == ls[m];
    GetOwnValue(ls, u);
    GetOwnValue(ms, u);
  }

  /** Deleting a keyword that is defined once leaves it undefined. */
  lemma GetAfterDel(ls: seq<string>, w: string, beyond: string)
    requires Plain(ls) && Keyword(w) && StartsFair(ls, w) && LineOf(ls, w) < |ls|
    requires StartsFair(Without(ls, LineOf(ls, w)), w)
    requires forall i :: LineOf(ls, w) < i < |ls| ==> !Has(ls[i], w)
    ensures Get(Del(Text(ls), w, beyond), w) == None
  {
    var n := LineOf(ls, w);
    DelIsLine(ls, w, beyond);
    WithoutLines(ls, n, w);
    SearchIsLine(Without(ls, n), w);
  }

  // ---------------------------------------------------------------- where it is not a map

  /** The condition on the start of the header is needed: a keyword that is a proper prefix of the
      first one is found there. */
  lemma UnfairStart(ls: seq<string>, w: string)
    requires Keyword(w) && ls != [] && w <= ls[0] && !Has(ls[0], w)
    ensures Search(Text(ls), w, 0) == Some(0)
  {
    TextSplit(ls, 0);
    assert Text(ls[..0]) == "";
    assert Text(ls)[0..|w|] == ls[0][..|w|];
  }

  /** What is read then is the value of the first keyword. */
  lemma UnfairGet(ls: seq<string>, w: string, k: string, v: string, after: string)
    requires Keyword(w) && Keyword(k) && w <= k && w != k && Value(v)
    requires ls != [] && ls[0] == k + (" " + (v + (" " + after)))
    ensures Get(Text(ls), w) == Some(v)
  {
    var l, t := ls[0], Text(ls);
    assert l[..|w|] == k[..|w|] == w;
    assert l[|w|] == k[|w|];
    UnfairStart(ls, w);
    var rest := " " + after + "\n" + Text(ls[1..]);
    assert t == k + (" " + (v + rest)) && t[0..] == t;
    FirstBlank(k, v + rest);
    assert rest[0] == ' ';
    TokenSkips(" ", v + rest);
    TokenIs(v, rest);
  }

  lemma FirstBlank(k: string, rest: string)
    requires Keyword(k)
    ensures var t := k + (" " + rest); ToSpace(t) == |k| && t[|k|..] == " " + rest
  {
    var t := k + (" " + rest);
    assert t[|k|] == ' ' && forall i :: 0 <= i < |k| ==> t[i] == k[i];
    Apart(k, " " + rest);
  }

  lemma MarkerEndsLine(t: string, p: nat)
    ensures Match(t, p, "DATA\n") ==> p + 4 < |t| && t[p + 4] == '\n'
  {
    if Match(t, p, "DATA\n") { assert t[p..p + 5][4] == t[p + 4]; }
  }

  /** The text before the marker that starts in the last word of a one-line header. */
  lemma MarkerOnLine(a: string)
    requires '\n' !in a
    ensures MarkerAt(a + "DATA\n", 0) == Some(|a|)
  {
    var l, t := a + "DATA", a + "DATA\n";
    assert t == l + "\n" && '\n' !in l;
    assert t[|a|..|a| + 5] == "DATA\n";
    forall p: nat | p < |a| ensures !Match(t, p, "DATA\n") {
      MarkerEndsLine(t, p);
      assert t[p + 4] == l[p + 4];
    }
    MarkerFirst(t, 0, |a|);
  }

  lemma {:induction false} MarkerFirst(t: string, p: nat, q: nat)
    requires p <= q <= |t| && Match(t, q, "DATA\n")
    requires forall r: nat :: p <= r < q ==> !Match(t, r, "DATA\n")
    ensures MarkerAt(t, p) == Some(q)
    decreases q - p
  {
    if p < q { MarkerFirst(t, p + 1, q); }
  }

  lemma OneLine(l: string, t: string)
    requires t == l + "\n"
    ensures Text([l]) == t
  {
    assert [l][1..] == [];
  }

  lemma AbsentKeyword(u: string, x: string, w: string)
    requires Keyword(u) && Value(x) && Keyword(w) && !(w <= u)
    ensures Search(u + " " + x + "\n", w, 0) == None
  {
    var l := u + " " + x;
    OneLine(l, l + "\n");
    assert l[..|u|] == u;
    if Has(l, w) { HasOne(l, u, w); }
    assert l == u + (" " + x) && l + "\n" == l + "\n" + "";
    if Match(l + "\n", 0, w) {
      UPrefixOfLine(l, "", w);
      PrefixStops(u, " " + x, w);
    }
    SearchIsLine([l], w);
  }

  /** A value that ends in DATA at the end of its line is taken for the marker: setting a new keyword
      then writes into the middle of that value and changes it. */
  lemma MarkerInValue(u: string, x: string, w: string, v: string)
    requires Keyword(u) && Value(x) && Value(x + "DATA") && Keyword(w) && Value(v) && !(w <= u)
    ensures var t := u + " " + x + "DATA\n";
            Get(t, u) == Some(x + "DATA") && Get(Set(t, w, v), u) == Some(x + w)
  {
    var a := u + " " + x;
    var t := a + "DATA\n";
    assert t == u + " " + (x + "DATA") + "\n";
    OneLine(a + "DATA", t);
    ValueOnLine(u, x + "DATA", "", a + "DATA");
    AbsentKeyword(u, x + "DATA", w);
    MarkerOnLine(a);
    assert t[..|a|] == a && t[|a|..] == "DATA\n";
    InsertedValue(u, x, w, v);
  }

  lemma InsertedValue(u: string, x: string, w: string, v: string)
    requires Keyword(u) && Value(x) && Keyword(w) && Value(v)
    ensures Get(u + " " + x + Entry(w, v) + "DATA\n", u) == Some(x + w)
  {
    var m := u + " " + x + Entry(w, v) + "DATA";
    var pad := Spaces(12 - |w|) + " ";
    var after := pad + v + Spaces(20 - |v|) + "   " + "DATA";
    assert after[0] == pad[0] == ' ';
    assert m == u + " " + (x + w) + after;
    OneLine(m, u + " " + x + Entry(w, v) + "DATA\n");
    EntryPlain(w, v);
    ValueOnLine(u, x + w, after, m);
  }

  lemma ValueOnLine(u: string, v: string, after: string, l: string)
    requires Keyword(u) && v != [] && forall i :: 0 <= i < |v| ==> !IsWhite(v[i])
    requires l == u + " " + v + after && PlainLine(l) && (after == [] || IsWhite(after[0]))
    ensures Has(l, u) && LineOf([l], u) == 0 && Get(Text([l]), u) == Some(v)
  {
    assert l[..|u|] == u && l[|u|..] == " " + (v + after);
    TokenSkips(" ", v + after);
    if after == [] {
      assert v + after == v;
      assert ToWhite(v) == |v|;
    } else {
      TokenIs(v, after);
    }
    GetOwnValue([l], u);
  }
}
