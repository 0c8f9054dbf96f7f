/** The "DATA" marker of an ASCII header: a new keyword is written in front of the first place where
    "DATA" ends a line, wherever that is.  Which laws of a map survive that, exactly. */
module HeaderMarker {
  import opened Common
  import opened AsciiHeader

  /** The headers and arguments considered; nothing is asked about the marker. */
  ghost predicate Proper(ls: seq<string>, w: string, v: string) {
    Plain(ls) && Keyword(w) && Value(v) && StartsFair(ls, w)
  }

  predicate Known(ls: seq<string>, w: string) { LineOf(ls, w) < |ls| }

  /** Line `m` is the first that ends in the marker, and `a` is what stands before it there. */
  ghost predicate MarkedLine(ls: seq<string>, m: nat, a: string) {
    m < |ls| && ls[m] == a + "DATA" && MarkerAt(Text(ls), 0) == Some(|Text(ls[..m])| + |a|)
  }

  // ---------------------------------------------------------------- where the marker is

  lemma MarkerChars(t: string, q: nat)
    requires Match(t, q, "DATA\n")
    ensures t[q] == 'D' && t[q + 1] == 'A' && t[q + 2] == 'T' && t[q + 3] == 'A' && t[q + 4] == '\n'
  {
    var s := t[q..q + 5];
    assert s[0] == t[q] && s[1] == t[q + 1] && s[2] == t[q + 2] && s[3] == t[q + 3] && s[4] == t[q + 4];
  }

  /** A marker is the end of one line. */
  lemma {:induction false} MarkerEndsOne(ls: seq<string>, q: nat) returns (m: nat)
    requires Plain(ls) && Match(Text(ls), q, "DATA\n")
    ensures m < |ls| && |Text(ls[..m])| <= q && q + 4 == |Text(ls[..m])| + |ls[m]|
    decreases |ls|
  {
    var t, l, rest := Text(ls), ls[0], ls[1..];
    MarkerChars(t, q);
    assert t[|l|] == '\n' && forall i :: 0 <= i < |l| ==> t[i] == l[i];
    if q + 4 == |l| {
      m := 0;
    } else {
      var p := q - |l| - 1;
      assert q > |l| && t == l + "\n" + Text(rest);
      assert t[q..q + 5] == Text(rest)[p..p + 5];
      m := MarkerEndsOne(rest, p);
      assert ls[..m + 1][1..] == rest[..m];
      m := m + 1;
    }
  }

  lemma EndsInData(t: string, p: nat, l: string, q: nat)
    requires Match(t, q, "DATA\n") && |l| >= 4 && q + 4 == p + |l| && p + |l| < |t|
    requires forall i :: 0 <= i < |l| ==> t[p + i] == l[i]
    ensures l == l[..|l| - 4] + "DATA"
  {
    MarkerChars(t, q);
    var k := |l| - 4;
    assert l[k] == t[p + k] && l[k + 1] == t[p + (k + 1)] && l[k + 2] == t[p + (k + 2)] && l[k + 3] == t[p + (k + 3)];
    assert l[k..] == "DATA";
  }

  lemma LineInText(ls: seq<string>, m: nat)
    requires m < |ls|
    ensures var t, p := Text(ls), |Text(ls[..m])|;
      p + |ls[m]| < |t| && forall i :: 0 <= i < |ls[m]| ==> t[p + i] == ls[m][i]
  {
    TextSplit(ls, m);
  }

  lemma MarkerInLine(ls: seq<string>, m: nat, q: nat)
    requires m < |ls| && Match(Text(ls), q, "DATA\n")
    requires |Text(ls[..m])| <= q && q + 4 == |Text(ls[..m])| + |ls[m]|
    ensures ls[m] == ls[m][..|ls[m]| - 4] + "DATA"
  {
    LineInText(ls, m);
    EndsInData(Text(ls), |Text(ls[..m])|, ls[m], q);
  }

  lemma FindMarkedLine(ls: seq<string>) returns (m: nat, a: string)
    requires Plain(ls) && !NoMarker(ls)
    ensures MarkedLine(ls, m, a)
  {
    var q := MarkerAt(Text(ls), 0).value;
    m := MarkerEndsOne(ls, q);
    MarkerInLine(ls, m, q);
    a := ls[m][..|ls[m]| - 4];
  }

  // ---------------------------------------------------------------- what setting does there

  /** The lines after setting a new keyword. */
  function Inserted(ls: seq<string>, m: nat, a: string, w: string, v: string): seq<string>
    requires m < |ls|
  {
    ls[m := a + Entry(w, v) + "DATA"]
  }

  lemma SetAtMarker(ls: seq<string>, m: nat, a: string, w: string, v: string)
    requires Proper(ls, w, v) && !Known(ls, w) && MarkedLine(ls, m, a)
    ensures Set(Text(ls), w, v) == Text(Inserted(ls, m, a, w, v))
  {
    var before, rest := Text(ls[..m]), Text(ls[m + 1..]);
    SearchIsLine(ls, w);
    InsertedSplit(ls, m, a, w, v);
    MarkedText(ls, m, a);
    Apart(before + a, "DATA\n" + rest);
  }

  lemma InsertedSplit(ls: seq<string>, m: nat, a: string, w: string, v: string)
    requires m < |ls|
    ensures Text(Inserted(ls, m, a, w, v))
            == (Text(ls[..m]) + a + Entry(w, v)) + ("DATA\n" + Text(ls[m + 1..]))
  {
    var ms, e, before, rest := Inserted(ls, m, a, w, v), Entry(w, v), Text(ls[..m]), Text(ls[m + 1..]);
    TextSplit(ms, m);
    assert ms[..m] == ls[..m] && ms[m + 1..] == ls[m + 1..];
    AroundMarker(before, a, e, rest);
  }

  lemma AroundMarker(before: string, a: string, e: string, rest: string)
    ensures before + (a + e + "DATA" + "\n" + rest) == (before + a + e) + ("DATA\n" + rest)
  {
  }

  lemma InsertedPlain(ls: seq<string>, m: nat, a: string, w: string, v: string)
    requires Proper(ls, w, v) && MarkedLine(ls, m, a)
    ensures Plain(Inserted(ls, m, a, w, v))
  {
    EntryPlain(w, v);
    assert PlainLine(ls[m]);
    assert forall i :: 0 <= i < |a| ==> a[i] == ls[m][i];
  }

  /** Setting does what it does to lists of lines exactly when the keyword is known or there is no
      marker: otherwise no line is added. */
  lemma SetIsLineIff(ls: seq<string>, w: string, v: string)
    requires Proper(ls, w, v)
    ensures Set(Text(ls), w, v) == Text(SetLines(ls, w, v)) <==> Known(ls, w) || NoMarker(ls)
  {
    if Known(ls, w) || NoMarker(ls) {
      SetIsLine(ls, w, v);
    } else {
      SearchIsLine(ls, w);
      TextAppend(ls, [Entry(w, v)]);
      OneLine(Entry(w, v), Entry(w, v) + "\n");
      var q := MarkerAt(Text(ls), 0).value;
      assert |Set(Text(ls), w, v)| == |Text(ls)| + |Entry(w, v)|;
    }
  }

  // ---------------------------------------------------------------- get after set

  /** The new keyword is where ascii_header_get looks: at the start of a line, or overlapping what
      stands before the marker in such a way that the header now starts with the keyword. */
  predicate Lands(before: string, a: string, w: string) { a == "" || w <= before + a + w }

  /** In mid-line the new keyword is not at the start of its line. */
  lemma NotAtStart(a: string, w: string, v: string)
    requires Keyword(w) && a != "" && !Has(a + "DATA", w)
    ensures !Has(a + Entry(w, v) + "DATA", w)
  {
    var l, k := a + Entry(w, v) + "DATA", |w| - |a|;
    assert forall i :: 0 <= i < |a| ==> l[i] == a[i] == (a + "DATA")[i];
    assert forall i :: 0 <= i < |w| ==> l[|a| + i] == w[i];
    if |a| > |w| {
      assert l[..|w|] == (a + "DATA")[..|w|];
    } else {
      assert l[|w|] == w[k];
    }
  }

  lemma InsertedLineOf(ls: seq<string>, m: nat, a: string, w: string, v: string)
    requires Proper(ls, w, v) && !Known(ls, w) && MarkedLine(ls, m, a)
    ensures LineOf(Inserted(ls, m, a, w, v), w) == if a == "" then m else |ls|
  {
    var ms, n := Inserted(ls, m, a, w, v), LineOf(Inserted(ls, m, a, w, v), w);
    assert forall i :: 0 <= i < |ls| && i != m ==> ms[i] == ls[i];
    if a == "" {
      assert ms[m] == Entry(w, v) + "DATA";
      EntryHas(w, v, "DATA");
    } else {
      assert !Has(ls[m], w);
      NotAtStart(a, w, v);
    }
  }

  lemma InsertedFair(ls: seq<string>, m: nat, a: string, w: string, v: string)
    requires Proper(ls, w, v) && MarkedLine(ls, m, a) && a == ""
    ensures StartsFair(Inserted(ls, m, a, w, v), w)
  {
    var ms := Inserted(ls, m, a, w, v);
    if m == 0 {
      assert ms[0] == Entry(w, v) + "DATA";
      FirstLineSet(ms, w, v, "DATA", w);
    } else {
      FirstLineKept(ls, ms, w);
    }
  }

  /** The text after setting, with what follows the keyword. */
  function AfterKeyword(ls: seq<string>, m: nat, w: string, v: string): string
    requires m < |ls|
  {
    Spaces(12 - |w|) + " " + v + Spaces(20 - |v|) + "   DATA\n" + Text(ls[m + 1..])
  }

  lemma InsertedText(ls: seq<string>, m: nat, a: string, w: string, v: string)
    requires m < |ls| && Value(v)
    ensures Text(Inserted(ls, m, a, w, v)) == (Text(ls[..m]) + a + w) + AfterKeyword(ls, m, w, v)
  {
    InsertedSplit(ls, m, a, w, v);
    var x, pad, rest := Text(ls[..m]) + a, Spaces(12 - |w|) + " " + v + Spaces(20 - |v|), Text(ls[m + 1..]);
    assert Entry(w, v) == w + (pad + "   ");
    Assoc(x, w, pad + "   ");
    Assoc(x + w, pad + "   ", "DATA\n" + rest);
    AfterIs(ls, m, w, v);
  }

  lemma AfterIs(ls: seq<string>, m: nat, w: string, v: string)
    requires m < |ls|
    ensures (Spaces(12 - |w|) + " " + v + Spaces(20 - |v|) + "   ") + ("DATA\n" + Text(ls[m + 1..]))
            == AfterKeyword(ls, m, w, v)
  {
  }

  /** The value is the first word behind the keyword. */
  lemma ValueFollows(ls: seq<string>, m: nat, w: string, v: string)
    requires m < |ls| && Value(v)
    ensures Token(AfterKeyword(ls, m, w, v)) == v && AfterKeyword(ls, m, w, v)[0] == ' '
  {
    var pad, after := Spaces(12 - |w|) + " ", Spaces(20 - |v|) + "   DATA\n" + Text(ls[m + 1..]);
    assert AfterKeyword(ls, m, w, v) == pad + (v + after);
    assert after[0] == ' ' && pad[0] == ' ';
    TokenSkips(pad, v + after);
    TokenIs(v, after);
  }

  lemma FirstWord(x: string, w: string, after: string)
    requires Keyword(w) && after != "" && IsSpace(after[0]) && forall i :: 0 <= i < |x| ==> !IsSpace(x[i])
    ensures var t := (x + w) + after; ToSpace(t) == |x + w| && t[ToSpace(t)..] == after
  {
    var t := (x + w) + after;
    assert forall i :: 0 <= i < |x + w| ==> !IsSpace(t[i]);
    assert t[|x + w|] == after[0];
    assert ToSpace(t) == |x + w|;
    Apart(x + w, after);
  }

  lemma FoundAtZero(x: string, w: string, after: string)
    requires w <= x + w
    ensures Search((x + w) + after, w, 0) == Some(0)
  {
    var t := (x + w) + after;
    assert t[0..|w|] == (x + w)[..|w|] == w;
    assert Stops(t, 0, w);
  }

  /** A new keyword that lands at the start of the header is found there although it is in mid-line. */
  lemma FoundAtStart(ls: seq<string>, m: nat, a: string, w: string, v: string)
    requires Proper(ls, w, v) && !Known(ls, w) && MarkedLine(ls, m, a)
    requires w <= Text(ls[..m]) + a + w
    ensures Get(Text(Inserted(ls, m, a, w, v)), w) == Some(v)
    ensures |Text(ls[..m]) + a| < |w| && Text(ls[..m]) + a <= w
    ensures Search(Text(Inserted(ls, m, a, w, v)), w, 0) == Some(0)
  {
    var x, t, after := Text(ls[..m]) + a, Text(Inserted(ls, m, a, w, v)), AfterKeyword(ls, m, w, v);
    InsertedText(ls, m, a, w, v);
    ShortBefore(ls, m, a, w, v);
    ValueFollows(ls, m, w, v);
    FoundAtZero(x, w, after);
    FirstWord(x, w, after);
    assert t[0..] == t;
  }

  /** A keyword that fits into `x` is at its start. */
  lemma WithinPrefix(x: string, w: string, rest: string)
    ensures w <= x + w ==> (|x| >= |w| ==> Match(x + rest, 0, w)) && (|x| < |w| ==> x <= w)
  {
    if w <= x + w {
      assert forall i :: 0 <= i < |w| ==> w[i] == (x + w)[i];
      if |x| >= |w| { assert (x + rest)[0..|w|] == (x + w)[..|w|]; }
    }
  }

  lemma ShortBefore(ls: seq<string>, m: nat, a: string, w: string, v: string)
    requires Proper(ls, w, v) && !Known(ls, w) && MarkedLine(ls, m, a)
    requires w <= Text(ls[..m]) + a + w
    ensures |Text(ls[..m]) + a| < |w| && Text(ls[..m]) + a <= w
    ensures forall i :: 0 <= i < |Text(ls[..m]) + a| ==> !IsSpace((Text(ls[..m]) + a)[i])
  {
    var x, tail := Text(ls[..m]) + a, "DATA\n" + Text(ls[m + 1..]);
    NotAtHeaderStart(ls, w);
    MarkedText(ls, m, a);
    WithinPrefix(x, w, tail);
    assert forall i :: 0 <= i < |x| ==> x[i] == w[i];
  }

  lemma NotAtHeaderStart(ls: seq<string>, w: string)
    requires StartsFair(ls, w) && !Known(ls, w)
    ensures !Match(Text(ls), 0, w)
  {
  }

  lemma MarkedText(ls: seq<string>, m: nat, a: string)
    requires m < |ls| && ls[m] == a + "DATA"
    ensures Text(ls) == (Text(ls[..m]) + a) + ("DATA\n" + Text(ls[m + 1..]))
  {
    TextSplit(ls, m);
    assert a + "" == a && Text(ls[..m]) + a + "" == Text(ls[..m]) + a;
    AroundMarker(Text(ls[..m]), a, "", Text(ls[m + 1..]));
  }

  /** Get after setting a new keyword in a header with a marker. */
  lemma GetNewKeyword(ls: seq<string>, m: nat, a: string, w: string, v: string)
    requires Proper(ls, w, v) && !Known(ls, w) && MarkedLine(ls, m, a)
    ensures Get(Set(Text(ls), w, v), w) == if Lands(Text(ls[..m]), a, w) then Some(v) else None
  {
    var ms := Inserted(ls, m, a, w, v);
    SetAtMarker(ls, m, a, w, v);
    InsertedPlain(ls, m, a, w, v);
    InsertedLineOf(ls, m, a, w, v);
    if a == "" {
      InsertedFair(ls, m, a, w, v);
      assert ms[m] == Entry(w, v) + "DATA";
      EntryHas(w, v, "DATA");
      GetOwnValue(ms, w);
    } else if w <= Text(ls[..m]) + a + w {
      FoundAtStart(ls, m, a, w, v);
    } else {
      NotMatched(ls, m, a, w, v);
      GetOwnValue(ms, w);
    }
  }

  lemma NotMatched(ls: seq<string>, m: nat, a: string, w: string, v: string)
    requires m < |ls| && Value(v) && !(w <= Text(ls[..m]) + a + w)
    ensures !Match(Text(Inserted(ls, m, a, w, v)), 0, w)
  {
    var x, t := Text(ls[..m]) + a, Text(Inserted(ls, m, a, w, v));
    InsertedText(ls, m, a, w, v);
    assert t[0..|w|] == (x + w)[..|w|];
  }

  /** Get returns the value just set exactly when the keyword was known, or there is no marker, or
      the first marker is at the start of a line, or the new keyword lands at the header's start. */
  lemma GetAfterSetIff(ls: seq<string>, w: string, v: string)
    requires Proper(ls, w, v)
    ensures Get(Set(Text(ls), w, v), w) == Some(v) <==>
            (Known(ls, w) || NoMarker(ls)
             || var t, q := Text(ls), MarkerAt(Text(ls), 0).value;
                q <= |t| && (q == 0 || t[q - 1] == '\n' || w <= t[..q] + w))
  {
    if Known(ls, w) || NoMarker(ls) {
      GetAfterSet(ls, w, v);
    } else {
      var m, a := FindMarkedLine(ls);
      GetNewKeyword(ls, m, a, w, v);
      MarkerPlace(ls, m, a);
    }
  }

  lemma MarkerPlace(ls: seq<string>, m: nat, a: string)
    requires Plain(ls) && MarkedLine(ls, m, a)
    ensures var t, q := Text(ls), MarkerAt(Text(ls), 0).value;
      q <= |t| && t[..q] == Text(ls[..m]) + a && (q == 0 || t[q - 1] == '\n' <==> a == "")
  {
    MarkedText(ls, m, a);
    TextPlain(ls[..m]);
    assert PlainLine(ls[m]) && forall i :: 0 <= i < |a| ==> a[i] == ls[m][i];
    PlaceInText(Text(ls), Text(ls[..m]), a, Text(ls[m + 1..]));
  }

  lemma PlaceInText(t: string, before: string, a: string, rest: string)
    requires t == (before + a) + ("DATA\n" + rest) && '\n' !in a
    requires before == "" || before[|before| - 1] == '\n'
    ensures var q := |before| + |a|; t[..q] == before + a && (q == 0 || t[q - 1] == '\n' <==> a == "")
  {
    Apart(before + a, "DATA\n" + rest);
    var x := before + a;
    assert a != "" ==> x[|x| - 1] == a[|a| - 1];
    assert a == "" ==> x == before;
  }

  // ---------------------------------------------------------------- setting twice

  lemma AbsentGrows(t: string, w: string, v: string)
    requires Search(t, w, 0) == None && w != []
    ensures |Set(t, w, v)| > |t|
  {
  }

  lemma ShorterLine(ms: seq<string>, m: nat, e: string)
    requires m < |ms| && ms[m] == e + "DATA"
    ensures |Text(ms[m := e])| < |Text(ms)|
  {
    var ns := ms[m := e];
    TextSplit(ms, m);
    TextSplit(ns, m);
    assert ns[..m] == ms[..m] && ns[m + 1..] == ms[m + 1..];
  }

  lemma RewriteEatsMarker(ms: seq<string>, m: nat, w: string, v: string)
    requires Proper(ms, w, v) && m < |ms| && LineOf(ms, w) == m && ms[m] == Entry(w, v) + "DATA"
    ensures |Set(Text(ms), w, v)| < |Text(ms)|
  {
    SetIsLine(ms, w, v);
    RewrittenMarker(w, v);
    ShorterLine(ms, m, Entry(w, v));
  }

  /** Setting again a keyword that landed at a line start takes the marker away. */
  lemma AgainAtLineStart(ls: seq<string>, m: nat, w: string, v: string)
    requires Proper(ls, w, v) && !Known(ls, w) && MarkedLine(ls, m, "")
    ensures |Set(Set(Text(ls), w, v), w, v)| < |Set(Text(ls), w, v)|
  {
    SetAtMarker(ls, m, "", w, v);
    InsertedProper(ls, m, w, v);
    RewriteEatsMarker(Inserted(ls, m, "", w, v), m, w, v);
  }

  lemma InsertedProper(ls: seq<string>, m: nat, w: string, v: string)
    requires Proper(ls, w, v) && !Known(ls, w) && MarkedLine(ls, m, "")
    ensures var ms := Inserted(ls, m, "", w, v);
      Proper(ms, w, v) && LineOf(ms, w) == m && ms[m] == Entry(w, v) + "DATA"
  {
    InsertedPlain(ls, m, "", w, v);
    InsertedLineOf(ls, m, "", w, v);
    InsertedFair(ls, m, "", w, v);
  }

  lemma RewrittenMarker(w: string, v: string)
    requires Keyword(w) && Value(v)
    ensures NewLine(Entry(w, v) + "DATA", w, v) == Entry(w, v)
  {
    EntryHas(w, v, "DATA");
    assert ToComment("DATA") == 4;
  }

  lemma RewrittenFromStart(x: string, tail: string, w: string, v: string)
    requires Keyword(w) && Value(v) && x != "" && '#' !in x && '\n' !in x
    requires Search((x + Entry(w, v)) + tail, w, 0) == Some(0)
    ensures |Set((x + Entry(w, v)) + tail, w, v)| < |(x + Entry(w, v)) + tail|
  {
    var t := (x + Entry(w, v)) + tail;
    EntryPlain(w, v);
    CommentAfter(x + Entry(w, v), tail);
    assert t[0..] == t;
  }

  /** The same at the header's start. */
  lemma AgainAtStart(ls: seq<string>, m: nat, a: string, w: string, v: string)
    requires Proper(ls, w, v) && !Known(ls, w) && MarkedLine(ls, m, a) && a != ""
    requires w <= Text(ls[..m]) + a + w
    ensures |Set(Set(Text(ls), w, v), w, v)| < |Set(Text(ls), w, v)|
  {
    var x, tail := Text(ls[..m]) + a, "DATA\n" + Text(ls[m + 1..]);
    SetAtMarker(ls, m, a, w, v);
    FoundAtStart(ls, m, a, w, v);
    assert forall i :: 0 <= i < |x| ==> x[i] == w[i];
    InsertedSplit(ls, m, a, w, v);
    RewrittenFromStart(x, tail, w, v);
  }

  /** Setting twice is setting once exactly when the keyword was known or there is no marker. */
  lemma SetIdempotentIff(ls: seq<string>, w: string, v: string)
    requires Proper(ls, w, v)
    ensures Set(Set(Text(ls), w, v), w, v) == Set(Text(ls), w, v) <==> Known(ls, w) || NoMarker(ls)
  {
    if Known(ls, w) || NoMarker(ls) {
      SetIdempotent(ls, w, v);
    } else {
      var m, a := FindMarkedLine(ls);
      if a == "" {
        AgainAtLineStart(ls, m, w, v);
      } else if w <= Text(ls[..m]) + a + w {
        AgainAtStart(ls, m, a, w, v);
      } else {
        SetAtMarker(ls, m, a, w, v);
        InsertedPlain(ls, m, a, w, v);
        InsertedLineOf(ls, m, a, w, v);
        NotMatched(ls, m, a, w, v);
        SearchIsLine(Inserted(ls, m, a, w, v), w);
        AbsentGrows(Text(Inserted(ls, m, a, w, v)), w, v);
      }
    }
  }

  // ---------------------------------------------------------------- other keywords

  /** A new keyword set in front of a marker at the start of a line leaves the others alone. */
  lemma GetOtherAtMarker(ls: seq<string>, m: nat, w: string, v: string, u: string)
    requires Proper(ls, w, v) && !Known(ls, w) && MarkedLine(ls, m, "")
    requires Keyword(u) && StartsFair(ls, u) && u != w && (m == 0 ==> !(u <= w))
    requires LineOf(ls, u) < |ls| ==> HasValue(ls[LineOf(ls, u)], u)
    ensures Get(Set(Text(ls), w, v), u) == Get(Text(ls), u)
  {
    SetAtMarker(ls, m, "", w, v);
    InsertedPlain(ls, m, "", w, v);
    OtherLineOf(ls, m, w, v, u);
    OtherFair(ls, m, w, v, u);
    GetOwnValue(ls, u);
    GetOwnValue(Inserted(ls, m, "", w, v), u);
  }

  lemma OtherLineOf(ls: seq<string>, m: nat, w: string, v: string, u: string)
    requires Proper(ls, w, v) && MarkedLine(ls, m, "") && Keyword(u) && u != w
    ensures var ms, n := Inserted(ls, m, "", w, v), LineOf(ls, u);
      LineOf(ms, u) == n && (n < |ls| ==> ms[n] == ls[n])
  {
    var ms := Inserted(ls, m, "", w, v);
    InsertedShape(ls, m, w, v);
    EntryHas(w, v, "DATA");
    if Has(ms[m], u) { HasOne(ms[m], u, w); }
    NotInMarker(u);
    assert forall i :: 0 <= i < |ls| && i != m ==> ms[i] == ls[i];
  }

  lemma NotInMarker(u: string)
    ensures !Has("DATA", u) && "" + "DATA" == "DATA"
  {
  }

  lemma OtherFair(ls: seq<string>, m: nat, w: string, v: string, u: string)
    requires Proper(ls, w, v) && MarkedLine(ls, m, "")
    requires Keyword(u) && StartsFair(ls, u) && u != w && (m == 0 ==> !(u <= w))
    ensures StartsFair(Inserted(ls, m, "", w, v), u)
  {
    var ms := Inserted(ls, m, "", w, v);
    assert ms[m] == Entry(w, v) + "DATA";
    if m == 0 { FirstLineSet(ms, w, v, "DATA", u); } else { FirstLineKept(ls, ms, u); }
  }

  /** The first word of `x` is followed by white space. */
  predicate WordEnds(x: string) {
    if x != "" && IsWhite(x[0]) then WordEnds(x[1..]) else ToWhite(x) < |x|
  }

  /** The value in front of the marker: what is inserted there becomes part of it, in place of the
      marker, unless its word has ended. */
  lemma {:induction false} TokenMid(x: string, w: string, rest: string)
    requires Keyword(w) && rest != "" && IsWhite(rest[0])
    ensures Token(x + "DATA") == Token(x + (w + rest)) <==> WordEnds(x) || w == "DATA"
    ensures Token(x + "DATA") != "" && Token(x + (w + rest)) != ""
  {
    var s, t := x + "DATA", x + (w + rest);
    if x != "" && IsWhite(x[0]) {
      TokenMid(x[1..], w, rest);
      assert s[1..] == x[1..] + "DATA" && t[1..] == x[1..] + (w + rest);
    } else {
      WordMid(x, w, rest);
    }
  }

  lemma WordMid(x: string, w: string, rest: string)
    requires Keyword(w) && rest != "" && IsWhite(rest[0]) && !(x != "" && IsWhite(x[0]))
    ensures Token(x + "DATA") == Token(x + (w + rest)) <==> ToWhite(x) < |x| || w == "DATA"
    ensures Token(x + "DATA") != "" && Token(x + (w + rest)) != ""
  {
    if ToWhite(x) < |x| {
      SpaceInPrefix(x, "DATA");
      SpaceInPrefix(x, w + rest);
    } else {
      NoSpace(x);
      FirstToken(x, w, rest);
      Assoc(x, w, rest);
      Apart(x + w, rest);
      Apart(x, "DATA");
      Apart(x, w);
    }
  }

  lemma SpaceInPrefix(x: string, y: string)
    requires ToWhite(x) < |x|
    ensures ToWhite(x + y) == ToWhite(x) && (x + y)[..ToWhite(x)] == x[..ToWhite(x)]
    ensures x != "" && !IsWhite(x[0]) ==> Token(x + y) == x[..ToWhite(x)] != ""
  {
    assert forall i :: 0 <= i < |x| ==> (x + y)[i] == x[i];
  }

  lemma NoSpace(x: string)
    requires ToWhite(x) == |x|
    ensures Token(x + "DATA") == x + "DATA"
  {
    DataIsWord();
    JoinedWord(x, "DATA");
  }

  lemma DataIsWord()
    ensures var d := "DATA"; forall i :: 0 <= i < |d| ==> !IsWhite(d[i])
  {
    var d := "DATA";
    assert d[0] == 'D' && d[1] == 'A' && d[2] == 'T' && d[3] == 'A' && |d| == 4;
  }

  lemma JoinedWord(x: string, d: string)
    requires ToWhite(x) == |x| && forall i :: 0 <= i < |d| ==> !IsWhite(d[i])
    ensures Token(x + d) == x + d
  {
    WholeToken(x + d);
  }

  lemma WholeToken(s: string)
    requires forall i :: 0 <= i < |s| ==> !IsWhite(s[i])
    ensures Token(s) == s
  {
    assert ToWhite(s) == |s| && s[..|s|] == s;
  }

  lemma FirstToken(x: string, w: string, rest: string)
    requires Keyword(w) && rest != "" && IsWhite(rest[0]) && forall i :: 0 <= i < |x| ==> !IsWhite(x[i])
    ensures ToWhite((x + w) + rest) == |x + w|
  {
    var t := (x + w) + rest;
    assert forall i :: 0 <= i < |x + w| ==> !IsWhite(t[i]);
    assert t[|x + w|] == rest[0];
  }

  /** Only the inserted keyword, joined to what stands before it, can be new on the marker's line. */
  lemma InsertedHas(a: string, w: string, v: string, u: string)
    requires Keyword(w) && Keyword(u)
    ensures Has(a + Entry(w, v) + "DATA", u) <==> Has(a + "DATA", u) || u == a + w
    ensures Has(a + "DATA", u) ==> |u| < |a|
  {
    var l, l2, x := a + "DATA", a + Entry(w, v) + "DATA", a + w;
    assert forall i :: 0 <= i < |a| ==> l[i] == a[i] && l2[i] == a[i];
    assert forall i :: 0 <= i < 4 ==> l[|a| + i] == "DATA"[i];
    assert forall i :: 0 <= i < |w| ==> l2[|a| + i] == w[i];
    assert IsBlank(l2[|x|]) && l2[..|x|] == x;
    if |u| < |a| {
      assert l[..|u|] == l2[..|u|];
    } else {
      assert |u| < |x| ==> l2[|u|] == w[|u| - |a|];
      assert |u| > |x| && |u| < |l2| ==> l2[..|u|][|x|] == l2[|x|];
    }
  }

  lemma NewLineOf(ls: seq<string>, m: nat, a: string, w: string, v: string, u: string)
    requires Keyword(w) && Keyword(u) && m < |ls| && ls[m] == a + "DATA"
    ensures var n := LineOf(ls, u); LineOf(Inserted(ls, m, a, w, v), u) == if u == a + w && m < n then m else n
  {
    InsertedHas(a, w, v, u);
    OneLineChanged(ls, m, a + Entry(w, v) + "DATA", u, u == a + w);
  }

  /** Changing one line so that it defines the keyword if it did or if `joins`. */
  lemma OneLineChanged(ls: seq<string>, m: nat, l: string, u: string, joins: bool)
    requires m < |ls| && (Has(l, u) <==> Has(ls[m], u) || joins)
    ensures var n := LineOf(ls, u); LineOf(ls[m := l], u) == if joins && m < n then m else n
  {
    var ms, n := ls[m := l], LineOf(ls, u);
    var k := LineOf(ms, u);
    assert ms[m] == l && forall i :: 0 <= i < |ls| && i != m ==> ms[i] == ls[i];
    if k < |ls| { assert Has(ms[k], u); }
    if n < |ls| { assert Has(ls[n], u) && Has(ms[n], u); }
  }

  /** What the keyword in front of the inserted one, or joined to it, has as its value. */
  lemma InsertedValueIs(a: string, w: string, v: string, u: string)
    requires Keyword(w) && Value(v) && Keyword(u)
    ensures u == a + w ==> HasValue(a + Entry(w, v) + "DATA", u) && LineValue(a + Entry(w, v) + "DATA", u) == v
    ensures Has(a + "DATA", u) ==>
              && HasValue(a + "DATA", u) && HasValue(a + Entry(w, v) + "DATA", u)
              && (LineValue(a + Entry(w, v) + "DATA", u) == LineValue(a + "DATA", u)
                  <==> WordEnds(a[|u|..]) || w == "DATA")
  {
    InsertedHas(a, w, v, u);
    var pad, after := Spaces(12 - |w|) + " ", Spaces(20 - |v|) + "   DATA";
    var l, l2 := a + "DATA", a + Entry(w, v) + "DATA";
    assert after[0] == ' ' && pad[0] == ' ';
    assert l2 == a + (w + (pad + (v + after)));
    if u == a + w {
      assert l2[|u|..] == pad + (v + after);
      TokenSkips(pad, v + after);
      TokenIs(v, after);
    }
    if Has(l, u) {
      assert l[|u|..] == a[|u|..] + "DATA" && l2[|u|..] == a[|u|..] + (w + (pad + (v + after)));
      TokenMid(a[|u|..], w, pad + (v + after));
    }
  }

  /** Exactly when setting a new keyword in front of the marker, wherever it is, leaves another
      keyword's value alone: when its line is not the marker's, or its value has ended before the
      marker, or the two words are the same; and when what stands before the marker and the new
      keyword do not join to that very keyword (or give it the value it has). */
  lemma GetOtherIff(ls: seq<string>, m: nat, a: string, w: string, v: string, u: string)
    requires Proper(ls, w, v) && !Known(ls, w) && MarkedLine(ls, m, a)
    requires Keyword(u) && u != w && StartsFair(ls, u) && StartsFair(Inserted(ls, m, a, w, v), u)
    requires LineOf(ls, u) < |ls| ==> HasValue(ls[LineOf(ls, u)], u)
    ensures var n := LineOf(ls, u);
      Get(Set(Text(ls), w, v), u) == Get(Text(ls), u) <==>
        if u == a + w && m < n then n < |ls| && LineValue(ls[n], u) == v
        else n != m || WordEnds(a[|u|..]) || w == "DATA"
  {
    var ms := Inserted(ls, m, a, w, v);
    SetAtMarker(ls, m, a, w, v);
    InsertedPlain(ls, m, a, w, v);
    NewLineOf(ls, m, a, w, v, u);
    InsertedValueIs(a, w, v, u);
    GetOwnValue(ls, u);
    GetOwnValue(ms, u);
  }

  // ---------------------------------------------------------------- two new keywords

  lemma NoEarlierMarker(before: string, e: string, rest: string, p: nat)
    requires '\n' !in e && !Match(before + ("DATA\n" + rest), p, "DATA\n") && p < |before + e|
    ensures !Match((before + e) + ("DATA\n" + rest), p, "DATA\n")
  {
    var x, tail := before + e, "DATA\n" + rest;
    var s, t := x + tail, before + tail;
    MarkerEndsLine(s, p);
    assert |x| <= p + 4 < |x| + 4 ==> s[p + 4] == "DATA"[p + 4 - |x|];
    assert |before| <= p + 4 < |x| ==> s[p + 4] == e[p + 4 - |before|];
    assert p + 4 < |before| ==> t[p..p + 5] == s[p..p + 5];
  }

  lemma MarkerShifts(t: string, s: string, before: string, e: string, rest: string)
    requires t == before + ("DATA\n" + rest) && s == (before + e) + ("DATA\n" + rest) && '\n' !in e
    requires forall p: nat :: p < |before| ==> !Match(t, p, "DATA\n")
    ensures MarkerAt(s, 0) == Some(|before| + |e|)
  {
    var x := before + e;
    assert s[|x|..|x| + 5] == "DATA\n";
    forall p: nat | p < |x| ensures !Match(s, p, "DATA\n") {
      if p < |before| {
        NoEarlierMarker(before, e, rest, p);
      } else {
        NotInEntry(before, e, rest, p);
      }
    }
    MarkerFirst(s, 0, |x|);
  }

  lemma NotInEntry(before: string, e: string, rest: string, p: nat)
    requires '\n' !in e && |before| <= p < |before + e|
    ensures !Match((before + e) + ("DATA\n" + rest), p, "DATA\n")
  {
    var x := before + e;
    var s := x + ("DATA\n" + rest);
    MarkerEndsLine(s, p);
    assert |x| <= p + 4 < |x| + 4 ==> s[p + 4] == "DATA"[p + 4 - |x|];
    assert p + 4 < |x| ==> s[p + 4] == e[p + 4 - |before|];
  }

  lemma {:induction false} BeforeMarker(t: string, p: nat, r: nat)
    requires p <= r && (MarkerAt(t, p).Some? ==> r < MarkerAt(t, p).value)
    ensures !Match(t, r, "DATA\n")
    decreases r - p
  {
    if p < r && p <= |t| && !Match(t, p, "DATA\n") { BeforeMarker(t, p + 1, r); }
  }

  lemma NothingBefore(t: string)
    requires MarkerAt(t, 0).Some?
    ensures forall p: nat :: p < MarkerAt(t, 0).value ==> !Match(t, p, "DATA\n")
  {
    forall p: nat | p < MarkerAt(t, 0).value ensures !Match(t, p, "DATA\n") {
      BeforeMarker(t, 0, p);
    }
  }

  lemma FirstShifts(t: string, s: string, before: string, e: string, rest: string)
    requires t == before + ("DATA\n" + rest) && s == (before + e) + ("DATA\n" + rest) && '\n' !in e
    requires MarkerAt(t, 0) == Some(|before|)
    ensures MarkerAt(s, 0) == Some(|before| + |e|)
  {
    NothingBefore(t);
    MarkerShifts(t, s, before, e, rest);
  }

  lemma MarkerMovesTo(ls: seq<string>, m: nat, a: string, w: string, v: string)
    requires Keyword(w) && Value(v) && MarkedLine(ls, m, a)
    ensures MarkerAt(Text(Inserted(ls, m, a, w, v)), 0) == Some(|Text(ls[..m])| + |a| + |Entry(w, v)|)
  {
    assert '\n' !in Entry(w, v) by { EntryPlain(w, v); }
    MarkedText(ls, m, a);
    InsertedSplit(ls, m, a, w, v);
    FirstShifts(Text(ls), Text(Inserted(ls, m, a, w, v)), Text(ls[..m]) + a, Entry(w, v), Text(ls[m + 1..]));
  }

  /** After a new keyword the marker is no longer at the start of its line. */
  lemma MarkerMoves(ls: seq<string>, m: nat, a: string, w: string, v: string)
    requires Keyword(w) && Value(v) && MarkedLine(ls, m, a)
    ensures MarkedLine(Inserted(ls, m, a, w, v), m, a + Entry(w, v))
  {
    MarkerMovesTo(ls, m, a, w, v);
    assert Inserted(ls, m, a, w, v)[..m] == ls[..m];
  }

  lemma InsertedShape(ls: seq<string>, m: nat, w: string, v: string)
    requires m < |ls|
    ensures var ms := Inserted(ls, m, "", w, v);
      |ms| == |ls| && ms[m] == Entry(w, v) + "DATA" && ms[..m] == ls[..m] && ms[m + 1..] == ls[m + 1..]
  {
  }

  /** So a second new keyword cannot be read back. */
  lemma SecondKeywordLost(ls: seq<string>, m: nat, w: string, v: string, u: string, x: string)
    requires Proper(ls, w, v) && !Known(ls, w) && MarkedLine(ls, m, "")
    requires Keyword(u) && Value(x) && u != w && StartsFair(ls, u) && !Known(ls, u) && (m == 0 ==> !(u <= w))
    ensures !(u <= Text(ls[..m]) + Entry(w, v) + u) ==> Get(Set(Set(Text(ls), w, v), u, x), u) == None
  {
    var ms := Inserted(ls, m, "", w, v);
    SetAtMarker(ls, m, "", w, v);
    InsertedPlain(ls, m, "", w, v);
    MarkerMoves(ls, m, "", w, v);
    assert "" + Entry(w, v) == Entry(w, v);
    OtherLineOf(ls, m, w, v, u);
    OtherFair(ls, m, w, v, u);
    assert ms[..m] == ls[..m];
    GetNewKeyword(ms, m, Entry(w, v), u, x);
  }

  lemma DataHeader()
    ensures var ls := ["A 1", "DATA"];
      && Text(ls) == "A 1\nDATA\n" && Text(ls[..1]) == "A 1\n" && MarkedLine(ls, 1, "")
  {
    var ls, t := ["A 1", "DATA"], "A 1\nDATA\n";
    assert ls[..1] == ["A 1"] && ls[2..] == [];
    OneLine("A 1", "A 1\n");
    TextSplit(ls, 1);
    assert Text(ls) == t;
    assert t[4..9] == "DATA\n" && t[0] == 'A' && t[1] == ' ' && t[2] == '1' && t[3] == '\n';
    forall p: nat | p < 4 ensures !Match(t, p, "DATA\n") {
      MarkerEndsLine(t, p);
      assert t[p + 4] == "DATA\n"[p];
    }
    MarkerFirst(t, 0, 4);
  }

  lemma NewInDataHeader(w: string)
    requires Keyword(w) && |w| == 1 && w != "A"
    ensures var ls := ["A 1", "DATA"]; !Known(ls, w) && StartsFair(ls, w) && Plain(ls)
  {
    var ls := ["A 1", "DATA"];
    assert ls[0][..1] == "A" && ls[1][1] == 'A';
    assert !Has(ls[0], w) && !Has(ls[1], w);
    DataHeader();
    assert Text(ls)[0..1] == "A";
    assert !Match(Text(ls), 0, w);
  }

  lemma NewInData(w: string, v: string)
    requires Keyword(w) && Value(v) && |w| == 1 && w != "A"
    ensures Get(Set("A 1\nDATA\n", w, v), w) == Some(v)
    ensures |Set(Set("A 1\nDATA\n", w, v), w, v)| < |Set("A 1\nDATA\n", w, v)|
  {
    var ls := ["A 1", "DATA"];
    DataHeader();
    NewInDataHeader(w);
    GetNewKeyword(ls, 1, "", w, v);
    AgainAtLineStart(ls, 1, w, v);
  }

  lemma SecondInData(w: string, v: string, u: string, x: string)
    requires Keyword(w) && Value(v) && |w| == 1 && w != "A"
    requires Keyword(u) && Value(x) && |u| == 1 && u != "A" && u != w
    ensures Get(Set(Set("A 1\nDATA\n", w, v), u, x), u) == None
  {
    var ls := ["A 1", "DATA"];
    DataHeader();
    NewInDataHeader(w);
    NewInDataHeader(u);
    NotStarting(Text(ls[..1]), Entry(w, v), u);
    SecondKeywordLost(ls, 1, w, v, u, x);
  }

  lemma NotStarting(before: string, e: string, u: string)
    requires before != "" && |u| == 1 && u[0] != before[0]
    ensures !(u <= before + e + u)
  {
    assert (before + e + u)[0] == before[0];
  }

  /** The header the marker was made for: setting B and then C loses C, and setting B twice deletes
      the marker. */
  lemma DataLine()
    ensures var t := "A 1\nDATA\n";
      && Get(Set(t, "B", "2"), "B") == Some("2")
      && Get(Set(Set(t, "B", "2"), "C", "3"), "C") == None
      && |Set(Set(t, "B", "2"), "B", "2")| < |Set(t, "B", "2")|
  {
    NewInData("B", "2");
    SecondInData("B", "2", "C", "3");
  }
}
