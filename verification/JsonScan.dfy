/** The brace scanner that cuts a JSON object out of model text, against a printer for the JSON grammar
    of RFC 8259: sections 2 (structure and white space), 4 (objects), 5 (arrays), 6 (numbers) and 7 (strings). */
module JsonScan {
  // ---- the scanner --------------------------------------------------------------------------

  datatype ScanState = ScanState(depth: int, inString: bool, escaped: bool)

  function Step(s: ScanState, c: char): ScanState {
    if s.inString then
      if s.escaped then s.(escaped := false)
      else if c == '\\' then s.(escaped := true)
      else if c == '"' then s.(inString := false)
      else s
    else if c == '"' then s.(inString := true)
    else if c == '{' then s.(depth := s.depth + 1)
    else if c == '}' then s.(depth := s.depth - 1)
    else s
  }

  /** Reading `c` closes the object the scan started in. */
  predicate Closes(s: ScanState, c: char) {
    !s.inString && c == '}' && s.depth == 1
  }

  function Fold(s: ScanState, t: string): ScanState
    decreases t
  {
    if t == "" then s else Fold(Step(s, t[0]), t[1..])
  }

  predicate NeverCloses(s: ScanState, t: string)
    decreases t
  {
    t == "" || (!Closes(s, t[0]) && NeverCloses(Step(s, t[0]), t[1..]))
  }

  /** Length of the shortest prefix of `t` that closes, or none. */
  function CloseAt(s: ScanState, t: string): int
    decreases t
  {
    if t == "" then -1
    else if Closes(s, t[0]) then 1
    else
      var n := CloseAt(Step(s, t[0]), t[1..]);
      if n < 0 then n else n + 1
  }

  const OUTSIDE := ScanState(0, false, false)

  function IndexOf(t: string, c: char): int {
    if t == "" then -1
    else if t[0] == c then 0
    else
      var n := IndexOf(t[1..], c);
      if n < 0 then n else n + 1
  }

  lemma {:induction false} IndexOfBounds(t: string, c: char)
    ensures -1 <= IndexOf(t, c) < |t|
    ensures IndexOf(t, c) >= 0 ==> t[IndexOf(t, c)] == c
    ensures IndexOf(t, c) < 0 <==> c !in t
    ensures forall k :: 0 <= k < IndexOf(t, c) ==> t[k] != c
  {
    if t != "" {
      IndexOfBounds(t[1..], c);
      assert t == [t[0]] + t[1..];
    }
  }

  lemma {:induction false} CloseAtBounds(s: ScanState, t: string)
    ensures CloseAt(s, t) == -1 || 1 <= CloseAt(s, t) <= |t|
    decreases t
  {
    if t != "" { CloseAtBounds(Step(s, t[0]), t[1..]); }
  }

  /** What the scanner stage returns for an already stripped text. */
  function Scanned(t: string): string {
    var start := IndexOf(t, '{');
    if start < 0 then t
    else
      IndexOfBounds(t, '{');
      CloseAtBounds(OUTSIDE, t[start..]);
      var n := CloseAt(OUTSIDE, t[start..]);
      if n < 0 then t else t[start..start + n]
  }

  // ---- running over concatenations -------------------------------------------------------------

  lemma {:induction false} FoldConcat(s: ScanState, a: string, b: string)
    ensures Fold(s, a + b) == Fold(Fold(s, a), b)
    ensures NeverCloses(s, a + b) <==> NeverCloses(s, a) && NeverCloses(Fold(s, a), b)
    ensures NeverCloses(s, a) ==>
      CloseAt(s, a + b) == var n := CloseAt(Fold(s, a), b); if n < 0 then n else |a| + n
    decreases a
  {
    if a == "" {
      assert a + b == b;
    } else {
      assert (a + b)[0] == a[0] && (a + b)[1..] == a[1..] + b;
      FoldConcat(Step(s, a[0]), a[1..], b);
    }
  }

  /** Inside an object, outside a string: `t` is read without effect. */
  ghost predicate Neutral(t: string) {
    forall d :: d >= 1 ==>
      Fold(ScanState(d, false, false), t) == ScanState(d, false, false) && NeverCloses(ScanState(d, false, false), t)
  }

  lemma NeutralConcat(a: string, b: string)
    requires Neutral(a) && Neutral(b)
    ensures Neutral(a + b)
  {
    forall d | d >= 1
      ensures Fold(ScanState(d, false, false), a + b) == ScanState(d, false, false)
      ensures NeverCloses(ScanState(d, false, false), a + b)
    {
      FoldConcat(ScanState(d, false, false), a, b);
    }
  }

  /** Text without quotes and braces. */
  predicate Plain(t: string) {
    '"' !in t && '{' !in t && '}' !in t
  }

  lemma {:induction false} PlainNeutral(t: string)
    requires Plain(t)
    ensures Neutral(t)
  {
    if t != "" {
      assert forall c :: c in t[1..] ==> c in t;
      PlainNeutral(t[1..]);
      assert t[0] in t;
      forall d | d >= 1
        ensures Fold(ScanState(d, false, false), t) == ScanState(d, false, false)
        ensures NeverCloses(ScanState(d, false, false), t)
      {
        assert Step(ScanState(d, false, false), t[0]) == ScanState(d, false, false);
      }
    }
  }

  // ---- the grammar ------------------------------------------------------------------------------

  /** Section 7: one character of a string body, written as itself or after a backslash.  The four hex
      digits of a unicode escape are plain characters that follow its `u`. */
  datatype Unit = Char(c: char) | Escape(c: char)

  /** A superset of what section 7 allows: any character but quote and backslash may stand for itself, any may follow a backslash. */
  predicate ValidUnit(u: Unit) {
    u.Char? ==> u.c != '"' && u.c != '\\'
  }

  /** A value with the white space around it. */
  datatype Elem = Elem(before: string, value: Json, after: string)

  /** A name with the white space before it and before its colon, and its value. */
  datatype Member = Member(before: string, name: seq<Unit>, gap: string, elem: Elem)

  /** `Literal` is a number, true, false or null; `space` is the white space of an empty array or object. */
  datatype Json =
    | Literal(text: string)
    | Text(units: seq<Unit>)
    | List(space: string, elems: seq<Elem>)
    | Object(space: string, members: seq<Member>)

  predicate IsSpace(c: char) {
    c in {' ', '\t', '\n', '\r'}
  }

  predicate Blank(t: string) {
    forall c :: c in t ==> IsSpace(c)
  }

  /** Characters of section 3 literals and section 6 numbers. */
  predicate LiteralChar(c: char) {
    'a' <= c <= 'z' || '0' <= c <= '9' || c in {'-', '+', '.', 'E'}
  }

  predicate ValidName(units: seq<Unit>) {
    forall u :: u in units ==> ValidUnit(u)
  }

  predicate Valid(j: Json) {
    match j
    case Literal(text) => text != "" && forall c :: c in text ==> LiteralChar(c)
    case Text(units) => ValidName(units)
    case List(space, elems) => Blank(space) && ValidElems(elems)
    case Object(space, members) => Blank(space) && ValidMembers(members)
  }

  predicate ValidElem(e: Elem) {
    Blank(e.before) && Valid(e.value) && Blank(e.after)
  }

  predicate ValidElems(elems: seq<Elem>) {
    elems == [] || (ValidElem(elems[0]) && ValidElems(elems[1..]))
  }

  predicate ValidMember(m: Member) {
    Blank(m.before) && ValidName(m.name) && Blank(m.gap) && ValidElem(m.elem)
  }

  predicate ValidMembers(members: seq<Member>) {
    members == [] || (ValidMember(members[0]) && ValidMembers(members[1..]))
  }

  function PrintUnit(u: Unit): string {
    match u
    case Char(c) => [c]
    case Escape(c) => ['\\', c]
  }

  function PrintUnits(units: seq<Unit>): string {
    if units == [] then "" else PrintUnit(units[0]) + PrintUnits(units[1..])
  }

  function PrintString(units: seq<Unit>): string {
    "\"" + PrintUnits(units) + "\""
  }

  function Print(j: Json): string {
    match j
    case Literal(text) => text
    case Text(units) => PrintString(units)
    case List(space, elems) => "[" + space + PrintElems(elems) + "]"
    case Object(space, members) => "{" + space + PrintMembers(members) + "}"
  }

  function PrintElem(e: Elem): string {
    e.before + Print(e.value) + e.after
  }

  function PrintElems(elems: seq<Elem>): string {
    if elems == [] then ""
    else PrintElem(elems[0]) + (if |elems| > 1 then "," else "") + PrintElems(elems[1..])
  }

  function PrintMember(m: Member): string {
    m.before + PrintString(m.name) + m.gap + ":" + PrintElem(m.elem)
  }

  function PrintMembers(members: seq<Member>): string {
    if members == [] then ""
    else PrintMember(members[0]) + (if |members| > 1 then "," else "") + PrintMembers(members[1..])
  }

  // ---- every printed value is neutral --------------------------------------------------------------

  /** Inside a string only an unescaped quote ends it. */
  lemma {:induction false} StringBody(units: seq<Unit>, d: int)
    requires ValidName(units)
    ensures Fold(ScanState(d, true, false), PrintUnits(units)) == ScanState(d, true, false)
    ensures NeverCloses(ScanState(d, true, false), PrintUnits(units))
  {
    if units != [] {
      assert units[0] in units && forall u :: u in units[1..] ==> u in units;
      StringBody(units[1..], d);
      UnitStays(units[0], d);
      FoldConcat(ScanState(d, true, false), PrintUnit(units[0]), PrintUnits(units[1..]));
    }
  }

  lemma UnitStays(u: Unit, d: int)
    requires ValidUnit(u)
    ensures Fold(ScanState(d, true, false), PrintUnit(u)) == ScanState(d, true, false)
    ensures NeverCloses(ScanState(d, true, false), PrintUnit(u))
  {
    var s, t := ScanState(d, true, false), PrintUnit(u);
    match u
    case Char(c) =>
      assert t[0] == c && t[1..] == "" && Step(s, c) == s;
    case Escape(c) =>
      var e := ScanState(d, true, true);
      assert t[0] == '\\' && t[1..] == [c] && [c][0] == c && [c][1..] == "";
      assert Step(s, '\\') == e && Step(e, c) == s;
      assert Fold(e, [c]) == s && NeverCloses(e, [c]);
  }

  lemma QuoteFlips(d: int)
    ensures Fold(ScanState(d, false, false), "\"") == ScanState(d, true, false)
    ensures Fold(ScanState(d, true, false), "\"") == ScanState(d, false, false)
    ensures NeverCloses(ScanState(d, false, false), "\"") && NeverCloses(ScanState(d, true, false), "\"")
  {
    assert "\""[0] == '"' && "\""[1..] == "";
  }

  lemma StringNeutral(units: seq<Unit>)
    requires ValidName(units)
    ensures Neutral(PrintString(units))
  {
    var body := PrintUnits(units);
    forall d | d >= 1
      ensures Fold(ScanState(d, false, false), PrintString(units)) == ScanState(d, false, false)
      ensures NeverCloses(ScanState(d, false, false), PrintString(units))
    {
      var out, within := ScanState(d, false, false), ScanState(d, true, false);
      StringBody(units, d);
      QuoteFlips(d);
      FoldConcat(out, "\"", body);
      FoldConcat(out, "\"" + body, "\"");
    }
  }

  lemma Enclosed(inner: string, d: int)
    requires Neutral(inner) && d >= 0
    ensures Fold(ScanState(d, false, false), "{" + inner) == ScanState(d + 1, false, false)
    ensures NeverCloses(ScanState(d, false, false), "{" + inner)
  {
    assert ("{" + inner)[0] == '{' && ("{" + inner)[1..] == inner;
  }

  lemma ObjectNeutral(inner: string)
    requires Neutral(inner)
    ensures Neutral("{" + inner + "}")
  {
    forall d | d >= 1
      ensures Fold(ScanState(d, false, false), "{" + inner + "}") == ScanState(d, false, false)
      ensures NeverCloses(ScanState(d, false, false), "{" + inner + "}")
    {
      Enclosed(inner, d);
      assert "}"[1..] == "";
      FoldConcat(ScanState(d, false, false), "{" + inner, "}");
    }
  }

  lemma BlankNeutral(t: string)
    requires Blank(t)
    ensures Neutral(t)
  {
    PlainNeutral(t);
  }

  lemma {:induction false} PrintNeutral(j: Json)
    requires Valid(j)
    ensures Neutral(Print(j))
    decreases j
  {
    hide Neutral;
    match j
    case Literal(text) => PlainNeutral(text);
    case Text(units) => StringNeutral(units);
    case List(space, elems) =>
      BlankNeutral(space);
      ElemsNeutral(elems);
      PlainNeutral("[");
      PlainNeutral("]");
      NeutralConcat("[", space);
      NeutralConcat("[" + space, PrintElems(elems));
      NeutralConcat("[" + space + PrintElems(elems), "]");
    case Object(space, members) =>
      BlankNeutral(space);
      MembersNeutral(members);
      NeutralConcat(space, PrintMembers(members));
      ObjectNeutral(space + PrintMembers(members));
      assert "{" + (space + PrintMembers(members)) + "}" == "{" + space + PrintMembers(members) + "}";
  }

  lemma {:induction false} ElemNeutral(e: Elem)
    requires ValidElem(e)
    ensures Neutral(PrintElem(e))
    decreases e
  {
    hide Neutral;
    BlankNeutral(e.before);
    BlankNeutral(e.after);
    PrintNeutral(e.value);
    NeutralConcat(e.before, Print(e.value));
    NeutralConcat(e.before + Print(e.value), e.after);
  }

  lemma {:induction false} ElemsNeutral(elems: seq<Elem>)
    requires ValidElems(elems)
    ensures Neutral(PrintElems(elems))
    decreases elems
  {
    hide Neutral;
    if elems == [] {
      PlainNeutral("");
    } else {
      var comma := if |elems| > 1 then "," else "";
      PlainNeutral(comma);
      ElemNeutral(elems[0]);
      ElemsNeutral(elems[1..]);
      NeutralConcat(PrintElem(elems[0]), comma);
      NeutralConcat(PrintElem(elems[0]) + comma, PrintElems(elems[1..]));
    }
  }

  lemma {:induction false} MembersNeutral(members: seq<Member>)
    requires ValidMembers(members)
    ensures Neutral(PrintMembers(members))
    decreases members
  {
    hide Neutral;
    if members == [] {
      PlainNeutral("");
    } else {
      var comma := if |members| > 1 then "," else "";
      PlainNeutral(comma);
      MemberNeutral(members[0]);
      MembersNeutral(members[1..]);
      NeutralConcat(PrintMember(members[0]), comma);
      NeutralConcat(PrintMember(members[0]) + comma, PrintMembers(members[1..]));
    }
  }

  lemma {:induction false} MemberNeutral(m: Member)
    requires ValidMember(m)
    ensures Neutral(PrintMember(m))
    decreases m
  {
    hide Neutral;
    BlankNeutral(m.before);
    StringNeutral(m.name);
    BlankNeutral(m.gap);
    PlainNeutral(":");
    ElemNeutral(m.elem);
    NeutralConcat(m.before, PrintString(m.name));
    NeutralConcat(m.before + PrintString(m.name), m.gap);
    NeutralConcat(m.before + PrintString(m.name) + m.gap, ":");
    NeutralConcat(m.before + PrintString(m.name) + m.gap + ":", PrintElem(m.elem));
  }

  // ---- the scanner finds exactly the object -----------------------------------------------------------

  /** From the opening brace of an object the scan closes at its last brace and nowhere before. */
  lemma ClosesAtEnd(inner: string, rest: string)
    requires Neutral(inner)
    ensures CloseAt(OUTSIDE, "{" + inner + "}" + rest) == |inner| + 2
  {
    Enclosed(inner, 0);
    var t := "}" + rest;
    assert t[0] == '}';
    assert CloseAt(ScanState(1, false, false), t) == 1;
    FoldConcat(OUTSIDE, "{" + inner, t);
    assert "{" + inner + t == "{" + inner + "}" + rest;
  }

  /** For any JSON object, any text without an opening brace before it and any text at all after it, the
      scanner cuts out exactly the object, whatever braces, quotes and backslashes its strings hold. */
  lemma ScanFindsObject(prefix: string, o: Json, suffix: string)
    requires '{' !in prefix && o.Object? && Valid(o)
    ensures Scanned(prefix + Print(o) + suffix) == Print(o)
  {
    var inner := o.space + PrintMembers(o.members);
    var t := prefix + Print(o) + suffix;
    BlankNeutral(o.space);
    MembersNeutral(o.members);
    NeutralConcat(o.space, PrintMembers(o.members));
    assert Print(o) == "{" + inner + "}";
    FirstBrace(prefix, Print(o) + suffix);
    assert t == prefix + (Print(o) + suffix);
    assert t[|prefix|..] == Print(o) + suffix;
    assert "{" + inner + "}" + suffix == Print(o) + suffix;
    ClosesAtEnd(inner, suffix);
    assert t[|prefix|..|prefix| + |Print(o)|] == Print(o);
  }

  lemma {:induction false} FirstBrace(prefix: string, rest: string)
    requires '{' !in prefix && rest != "" && rest[0] == '{'
    ensures IndexOf(prefix + rest, '{') == |prefix|
  {
    if prefix == "" {
      assert prefix + rest == rest;
    } else {
      assert (prefix + rest)[1..] == prefix[1..] + rest && (prefix + rest)[0] == prefix[0];
      assert prefix[0] in prefix && forall c :: c in prefix[1..] ==> c in prefix;
      FirstBrace(prefix[1..], rest);
    }
  }

  // ---- any text -------------------------------------------------------------------------------------

  /** The scan closes at the first prefix that is back at depth zero, if there is one. */
  lemma {:induction false} CloseAtMeans(s: ScanState, t: string)
    requires s.depth >= 1
    ensures CloseAt(s, t) >= 0 ==>
      0 < CloseAt(s, t) <= |t| && t[CloseAt(s, t) - 1] == '}' && Fold(s, t[..CloseAt(s, t)]).depth == 0
    ensures forall k :: 0 <= k <= |t| && (CloseAt(s, t) < 0 || k < CloseAt(s, t)) ==> Fold(s, t[..k]).depth >= 1
    decreases t
  {
    if t == "" {
      assert t[..0] == "";
    } else if Closes(s, t[0]) {
      assert t[..1][1..] == "";
      assert Fold(s, t[..1]) == Fold(Step(s, t[0]), "");
      assert t[..0] == "";
    } else {
      var s', rest := Step(s, t[0]), t[1..];
      CloseAtMeans(s', rest);
      forall k | 0 < k <= |t| ensures Fold(s, t[..k]) == Fold(s', rest[..k - 1]) {
        assert t[..k][0] == t[0] && t[..k][1..] == rest[..k - 1];
      }
      assert t[..0] == "";
    }
  }

  /** The first `n` characters have as many closing as opening braces, those inside strings aside. */
  predicate BalancedAt(t: string, n: int) {
    0 < n <= |t| && Fold(OUTSIDE, t[..n]).depth == 0
  }

  lemma FoldFirst(s: ScanState, t: string, n: int)
    requires 0 < n <= |t|
    ensures Fold(s, t[..n]) == Fold(Step(s, t[0]), t[1..][..n - 1])
  {
    assert t[..n][0] == t[0] && t[..n][1..] == t[1..][..n - 1];
  }

  /** From an opening brace the scan closes at the shortest balanced piece. */
  lemma ClosesBalanced(t: string)
    requires t != "" && t[0] == '{'
    ensures var c := CloseAt(OUTSIDE, t); c >= 0 ==> BalancedAt(t, c) && t[c - 1] == '}'
    ensures forall k :: BalancedAt(t, k) ==> 0 <= CloseAt(OUTSIDE, t) <= k
  {
    var s, tail := Step(OUTSIDE, t[0]), t[1..];
    CloseAtMeans(s, tail);
    CloseAtBounds(s, tail);
    var c := CloseAt(OUTSIDE, t);
    hide Fold, Step, CloseAt;
    if c >= 0 {
      FoldFirst(OUTSIDE, t, c);
      assert t[c - 1] == tail[c - 2];
    }
    forall k | BalancedAt(t, k) ensures 0 <= c <= k { FoldFirst(OUTSIDE, t, k); }
  }

  /** For any text with a brace: the shortest balanced piece from the first brace on is cut out, and if there is none
      the text comes back as it is. */
  lemma ScannedMeans(prefix: string, rest: string)
    requires '{' !in prefix && rest != "" && rest[0] == '{'
    ensures (forall n :: !BalancedAt(rest, n)) ==> Scanned(prefix + rest) == prefix + rest
    ensures forall n :: BalancedAt(rest, n) && (forall k :: BalancedAt(rest, k) ==> n <= k) ==>
      Scanned(prefix + rest) == rest[..n] && rest[n - 1] == '}'
  {
    FirstBrace(prefix, rest);
    assert (prefix + rest)[|prefix|..] == rest;
    ClosesBalanced(rest);
    CloseAtBounds(OUTSIDE, rest);
    var c := CloseAt(OUTSIDE, rest);
    hide BalancedAt, CloseAt;
    if c >= 0 { assert (prefix + rest)[|prefix|..|prefix| + c] == rest[..c]; }
  }

  lemma ScannedWithoutBrace(t: string)
    requires '{' !in t
    ensures Scanned(t) == t
  {
    IndexOfBounds(t, '{');
  }

  /** An object that breaks off before its last brace, wherever that is, is not cut at all. */
  lemma TruncatedComesBack(prefix: string, o: Json, n: nat)
    requires '{' !in prefix && o.Object? && Valid(o) && 0 < n < |Print(o)|
    ensures Scanned(prefix + Print(o)[..n]) == prefix + Print(o)[..n]
  {
    var inner := o.space + PrintMembers(o.members);
    BlankNeutral(o.space);
    MembersNeutral(o.members);
    NeutralConcat(o.space, PrintMembers(o.members));
    var whole, piece := "{" + inner, Print(o)[..n];
    assert Print(o) == whole + "}" && piece == whole[..n] && whole == piece + whole[n..];
    Enclosed(inner, 0);
    FoldConcat(OUTSIDE, piece, whole[n..]);
    NeverClosesMeans(OUTSIDE, piece);
    assert piece[0] == '{';
    FirstBrace(prefix, piece);
    assert (prefix + piece)[|prefix|..] == piece;
  }

  lemma {:induction false} NeverClosesMeans(s: ScanState, t: string)
    ensures NeverCloses(s, t) <==> CloseAt(s, t) < 0
    decreases t
  {
    if t != "" {
      CloseAtBounds(Step(s, t[0]), t[1..]);
      NeverClosesMeans(Step(s, t[0]), t[1..]);
    }
  }

  // ---- stripping --------------------------------------------------------------------------------------

  /** White space for the strip: any set of characters without the braces of an object. */
  function StripLeft(t: string, space: char -> bool): string {
    if t != "" && space(t[0]) then StripLeft(t[1..], space) else t
  }

  function StripRight(t: string, space: char -> bool): string {
    if t != "" && space(t[|t| - 1]) then StripRight(t[..|t| - 1], space) else t
  }

  lemma {:induction false} StripLeftKeeps(prefix: string, rest: string, space: char -> bool) returns (kept: string)
    requires rest != "" && !space(rest[0])
    ensures StripLeft(prefix + rest, space) == kept + rest && forall c :: c in kept ==> c in prefix
  {
    if prefix == "" {
      kept := "";
      assert prefix + rest == rest && kept + rest == rest;
    } else {
      assert (prefix + rest)[1..] == prefix[1..] + rest && (prefix + rest)[0] == prefix[0];
      if space(prefix[0]) {
        kept := StripLeftKeeps(prefix[1..], rest, space);
        assert forall c :: c in prefix[1..] ==> c in prefix;
      } else {
        kept := prefix;
      }
    }
  }

  lemma {:induction false} StripRightKeeps(rest: string, suffix: string, space: char -> bool) returns (kept: string)
    requires rest != "" && !space(rest[|rest| - 1])
    ensures StripRight(rest + suffix, space) == rest + kept
  {
    if suffix == "" {
      kept := "";
      assert rest + suffix == rest && rest + kept == rest;
    } else {
      var n := |suffix| - 1;
      assert (rest + suffix)[..|rest| + n] == rest + suffix[..n] && (rest + suffix)[|rest| + n] == suffix[n];
      if space(suffix[n]) {
        kept := StripRightKeeps(rest, suffix[..n], space);
      } else {
        kept := suffix;
      }
    }
  }

  /** The same through the strip that comes first. */
  lemma ExtractFindsObject(prefix: string, o: Json, suffix: string, space: char -> bool)
    requires '{' !in prefix && o.Object? && Valid(o) && !space('{') && !space('}')
    ensures Scanned(StripRight(StripLeft(prefix + Print(o) + suffix, space), space)) == Print(o)
  {
    var body := Print(o);
    assert body[0] == '{' && body[|body| - 1] == '}';
    assert prefix + body + suffix == prefix + (body + suffix) && (body + suffix)[0] == '{';
    var left := StripLeftKeeps(prefix, body + suffix, space);
    assert left + (body + suffix) == (left + body) + suffix;
    assert (left + body)[|left + body| - 1] == '}';
    var right := StripRightKeeps(left + body, suffix, space);
    ScanFindsObject(left, o, right);
  }

  // ---- the loop -----------------------------------------------------------------------------------------

  /** The scanner stage over a stripped text. */
  method ExtractScan(text: string) returns (block: string)
    ensures block == Scanned(text)
  {
    IndexOfBounds(text, '{');
    var start := Find(text, '{');
    if start >= 0 {
      var depth, inString, escaped := 0, false, false;
      var index: int := start;
      while index < |text|
        invariant start <= index <= |text|
        invariant var n := CloseAt(ScanState(depth, inString, escaped), text[index..]);
          CloseAt(OUTSIDE, text[start..]) == if n < 0 then n else index - start + n
      {
        var c := text[index];
        assert text[index..][0] == c && text[index..][1..] == text[index + 1..];
        if inString {
          if escaped {
            escaped := false;
          } else if c == '\\' {
            escaped := true;
          } else if c == '"' {
            inString := false;
          }
        } else if c == '"' {
          inString := true;
        } else if c == '{' {
          depth := depth + 1;
        } else if c == '}' {
          depth := depth - 1;
          if depth == 0 {
            return text[start..index + 1];
          }
        }
        index := index + 1;
      }
      assert text[index..] == "";
    }
    return text;
  }

  method Find(text: string, c: char) returns (at: int)
    ensures at == IndexOf(text, c)
  {
    at := 0;
    while at < |text|
      invariant 0 <= at <= |text|
      invariant var n := IndexOf(text[at..], c); IndexOf(text, c) == if n < 0 then n else at + n
    {
      assert text[at..][1..] == text[at + 1..];
      if text[at] == c { return; }
      at := at + 1;
    }
    assert text[at..] == "";
    at := -1;
  }
}
