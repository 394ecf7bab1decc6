/** The SQL scanner of src/query.rs. Text is a sequence of bytes, each seen as the character of that
    code, which is how the scanner reads it. */
module Scanner {
  import opened Wrappers

  /** The variables of the scan. `pending` is the word being read, in upper case. */
  datatype State = State(sk: string, first: Option<string>, semis: nat, pending: string)

  datatype Scan = Scan(skeleton: string, firstKeyword: string, topSemicolons: nat)

  predicate IsLetter(c: char) {
    'a' <= c <= 'z' || 'A' <= c <= 'Z'
  }

  predicate IsWord(c: char) {
    IsLetter(c) || '0' <= c <= '9' || c == '_' || c == '$'
  }

  predicate IsSpace(c: char) {
    c == ' ' || c == '\t' || c == '\n' || c == '\r' || c == 12 as char
  }

  function Upper(c: char): (u: char)
    ensures !('a' <= u <= 'z')
  {
    if 'a' <= c <= 'z' then (c as int - 32) as char else c
  }

  function Lower(c: char): (l: char)
    ensures !('A' <= l <= 'Z')
  {
    if 'A' <= c <= 'Z' then (c as int + 32) as char else c
  }

  function LowerAll(s: string): (r: string)
    ensures |r| == |s| && forall i :: 0 <= i < |s| ==> r[i] == Lower(s[i])
  {
    seq(|s|, i requires 0 <= i < |s| => Lower(s[i]))
  }

  datatype Kind = Quoted | Ticked | LineComment | BlockComment | Semicolon | Plain

  /** What starts at position `i`; only `b[i]` and one character of lookahead matter. */
  function KindAt(b: string, i: nat): Kind
    requires i < |b|
  {
    if b[i] == '\'' || b[i] == '"' then Quoted
    else if b[i] == '`' then Ticked
    else if b[i] == '-' && i + 1 < |b| && b[i + 1] == '-' then LineComment
    else if b[i] == '#' then LineComment
    else if b[i] == '/' && i + 1 < |b| && b[i + 1] == '*' then BlockComment
    else if b[i] == ';' then Semicolon
    else Plain
  }

  /** Where a literal opened by `q` closes, or the end of the text. */
  function LitEnd(b: string, i: nat, q: char, escaped: bool): (e: nat)
    requires i <= |b|
    ensures i <= e <= |b| && (e < |b| ==> b[e] == q)
    decreases |b| - i
  {
    if i == |b| then i
    else if b[i] == '\\' && !escaped then LitEnd(b, i + 1, q, true)
    else if b[i] == q && !escaped then i
    else LitEnd(b, i + 1, q, false)
  }

  function Find(b: string, i: nat, c: char): (e: nat)
    requires i <= |b|
    ensures i <= e <= |b| && (e < |b| ==> b[e] == c) && forall k :: i <= k < e ==> b[k] != c
    decreases |b| - i
  {
    if i == |b| || b[i] == c then i else Find(b, i + 1, c)
  }

  predicate ClosesAt(b: string, i: nat) {
    i + 1 < |b| && b[i] == '*' && b[i + 1] == '/'
  }

  /** Where a block comment closes, or the last position tried. */
  function BlockEnd(b: string, i: nat): (e: nat)
    requires i <= |b|
    ensures i <= e <= |b| && (ClosesAt(b, e) || e + 1 >= |b|) && forall k :: i <= k < e ==> !ClosesAt(b, k)
    decreases |b| - i
  {
    if i + 1 >= |b| || ClosesAt(b, i) then i else BlockEnd(b, i + 1)
  }

  /** Where the token that starts at `i` ends. It does not depend on what was read before. */
  function TokenEnd(b: string, i: nat): (e: nat)
    requires i < |b|
    ensures e > i
  {
    match KindAt(b, i)
    case Quoted => LitEnd(b, i + 1, b[i], false) + 1
    case Ticked => Find(b, i + 1, '`') + 1
    case LineComment => Find(b, i, '\n')
    case BlockComment => BlockEnd(b, i + 2) + 2
    case Semicolon => i + 1
    case Plain => i + 1
  }

  function Flush(s: State): State {
    if s.pending == "" then s
    else
      State(s.sk + LowerAll(s.pending), if s.first.None? then Some(s.pending) else s.first, s.semis, "")
  }

  function Blank(s: State): State {
    s.(sk := s.sk + " ")
  }

  function PlainStep(c: char, s: State): State {
    if IsWord(c) then s.(pending := s.pending + [if IsLetter(c) then Upper(c) else c])
    else if IsSpace(c) || c == '(' then Blank(Flush(s))
    else if c == '.' && s.pending != "" then s.(pending := s.pending + ".")
    else if s.pending == "" then s.(sk := s.sk + [c])
    else s
  }

  /** What the token at `i` does to the state. It does not depend on the inside of the token. */
  function Step(b: string, i: nat, s: State): State
    requires i < |b|
  {
    match KindAt(b, i)
    case Semicolon => Blank(Flush(s).(semis := Flush(s).semis + 1))
    case Plain => PlainStep(b[i], s)
    case _ => Blank(Flush(s))
  }

  function Go(b: string, i: nat, s: State): State
    decreases if i < |b| then |b| - i else 0
  {
    if i >= |b| then Flush(s) else Go(b, TokenEnd(b, i), Step(b, i, s))
  }

  const START := State("", None, 0, "")

  function Finish(s: State): Scan {
    Scan(s.sk, if s.first.Some? then s.first.value else "", s.semis)
  }

  function ScanOf(b: string): Scan {
    Finish(Go(b, 0, START))
  }

  // ----- the loops of the source -----

  lemma {:induction false} GoStep(b: string, i: nat, s: State)
    ensures Go(b, i, s) == if i >= |b| then Flush(s) else Go(b, TokenEnd(b, i), Step(b, i, s))
  {
  }

  method ScanSql(b: string) returns (r: Scan)
    ensures r == ScanOf(b)
  {
    hide Go, LitEnd, Find, BlockEnd, Flush, IsWord, IsSpace, IsLetter;
    var i, s := 0, START;
    while i < |b|
      invariant 0 <= i
      invariant Go(b, i, s) == Go(b, 0, START)
      decreases |b| - i
    {
      GoStep(b, i, s);
      var c := b[i];
      if c == '\'' || c == '"' {
        s := Flush(s);
        i := SkipLiteral(b, i + 1, c);
        s := Blank(s);
      } else if c == '`' {
        s := Flush(s);
        i := SkipTo(b, i + 1, '`');
        i := i + 1;
        s := Blank(s);
      } else if (c == '-' && i + 1 < |b| && b[i + 1] == '-') || c == '#' {
        s := Flush(s);
        i := SkipTo(b, i, '\n');
        s := Blank(s);
      } else if c == '/' && i + 1 < |b| && b[i + 1] == '*' {
        s := Flush(s);
        i := SkipBlock(b, i + 2);
        i := i + 2;
        s := Blank(s);
      } else if c == ';' {
        s := Flush(s);
        s := s.(semis := s.semis + 1);
        i := i + 1;
        s := Blank(s);
      } else {
        s := PlainChar(c, s);
        i := i + 1;
      }
    }
    GoStep(b, i, s);
    s := Flush(s);
    r := Finish(s);
  }

  /** The last arm of the scan. */
  method PlainChar(c: char, was: State) returns (s: State)
    ensures s == PlainStep(c, was)
  {
    s := was;
    if IsWord(c) {
      s := s.(pending := s.pending + [if IsLetter(c) then Upper(c) else c]);
    } else if IsSpace(c) || c == '(' {
      s := Flush(s);
      s := Blank(s);
    } else if c == '.' && s.pending != "" {
      s := s.(pending := s.pending + ".");
    } else if s.pending == "" {
      s := s.(sk := s.sk + [c]);
    }
  }

  /** The inner loop over a quoted identifier or a line comment. */
  method SkipTo(b: string, start: nat, c: char) returns (i: nat)
    requires start <= |b|
    ensures i == Find(b, start, c)
  {
    i := start;
    while i < |b| && b[i] != c
      invariant start <= i <= |b| && Find(b, i, c) == Find(b, start, c)
    {
      i := i + 1;
    }
  }

  /** The inner loop over a block comment. */
  method SkipBlock(b: string, start: nat) returns (i: nat)
    requires start <= |b|
    ensures i == BlockEnd(b, start)
  {
    i := start;
    while i + 1 < |b| && !(b[i] == '*' && b[i + 1] == '/')
      invariant start <= i <= |b| && BlockEnd(b, i) == BlockEnd(b, start)
    {
      i := i + 1;
    }
  }

  /** The inner loop over a literal, and the step over its closing quote. */
  method SkipLiteral(b: string, start: nat, q: char) returns (i: nat)
    requires start <= |b| && q != '\\'
    ensures i == LitEnd(b, start, q, false) + 1
  {
    i := start;
    var escaped := false;
    while i < |b|
      invariant start <= i <= |b| && LitEnd(b, i, q, escaped) == LitEnd(b, start, q, false)
    {
      if b[i] == '\\' && !escaped {
        escaped := true;
        i := i + 1;
        continue;
      }
      if b[i] == q && !escaped {
        break;
      }
      escaped := false;
      i := i + 1;
    }
    i := i + 1;
  }

  // ----- top-level positions and compositionality -----

  /** Scanning from `i`, position `k` is reached between two tokens. */
  ghost predicate TopLevel(b: string, i: nat, k: nat)
    requires k <= |b|
    decreases if i < k then k - i else 0
  {
    i == k || (i < k && TopLevel(b, TokenEnd(b, i), k))
  }

  ghost function After(b: string, i: nat, k: nat, s: State): State
    requires k <= |b| && TopLevel(b, i, k)
    decreases k - i
  {
    if i == k then s else After(b, TokenEnd(b, i), k, Step(b, i, s))
  }

  /** `b` reads like `a` up to position `k`, including the one character of lookahead. */
  ghost predicate SameUpTo(a: string, b: string, k: nat) {
    k <= |a| && k <= |b| && a[..k] == b[..k] && (k < |b| ==> k < |a| && a[k] == b[k])
  }

  lemma {:induction false} TopLevelIsPast(b: string, i: nat, k: nat)
    requires k <= |b| && TopLevel(b, i, k)
    ensures i <= k
  {
  }

  lemma {:induction false} GoVia(b: string, i: nat, k: nat, s: State)
    requires k <= |b| && TopLevel(b, i, k)
    ensures Go(b, i, s) == Go(b, k, After(b, i, k, s))
    decreases k - i
  {
    if i < k {
      TopLevelIsPast(b, TokenEnd(b, i), k);
      GoVia(b, TokenEnd(b, i), k, Step(b, i, s));
    }
  }

  lemma {:induction false} LitEndLocal(a: string, b: string, i: nat, q: char, escaped: bool, k: nat)
    requires SameUpTo(a, b, k) && i <= k && LitEnd(a, i, q, escaped) < k
    ensures LitEnd(b, i, q, escaped) == LitEnd(a, i, q, escaped)
    decreases k - i
  {
    assert a[i] == a[..k][i] == b[i];
    if a[i] == '\\' && !escaped {
      LitEndLocal(a, b, i + 1, q, true, k);
    } else if a[i] == q && !escaped {
    } else {
      LitEndLocal(a, b, i + 1, q, false, k);
    }
  }

  lemma {:induction false} SameAt(a: string, b: string, k: nat, j: nat)
    requires SameUpTo(a, b, k) && j < k
    ensures a[j] == b[j]
  {
    assert a[j] == a[..k][j] == b[..k][j];
  }

  /** The end of a token depends on the text up to that end and one more character. */
  lemma {:induction false} TokenEndLocal(a: string, b: string, i: nat, k: nat)
    requires SameUpTo(a, b, k) && i < k && TokenEnd(a, i) <= k
    ensures TokenEnd(b, i) == TokenEnd(a, i) && KindAt(b, i) == KindAt(a, i) && a[i] == b[i]
  {
    forall j: nat | j < k ensures a[j] == b[j] {
      SameAt(a, b, k, j);
    }
    KindLocal(a, b, i, k);
    hide LitEnd, Find, BlockEnd;
    match KindAt(a, i)
    case Quoted => LitEndLocal(a, b, i + 1, a[i], false, k);
    case Ticked => FindLocal(a, b, i + 1, '`', k);
    case LineComment => FindLocal(a, b, i, '\n', k);
    case BlockComment => BlockEndLocal(a, b, i + 2, k);
    case Semicolon =>
    case Plain =>
  }

  lemma {:induction false} KindLocal(a: string, b: string, i: nat, k: nat)
    requires SameUpTo(a, b, k) && i < k && TokenEnd(a, i) <= k
    ensures a[i] == b[i] && KindAt(b, i) == KindAt(a, i)
  {
    SameAt(a, b, k, i);
    if i + 1 < k {
      SameAt(a, b, k, i + 1);
    }
  }

  lemma {:induction false} FindLocal(a: string, b: string, i: nat, c: char, k: nat)
    requires SameUpTo(a, b, k) && i <= k && Find(a, i, c) <= k
    ensures Find(b, i, c) == Find(a, i, c)
  {
    forall j: nat | j < k ensures a[j] == b[j] {
      SameAt(a, b, k, j);
    }
  }

  lemma {:induction false} BlockEndLocal(a: string, b: string, i: nat, k: nat)
    requires SameUpTo(a, b, k) && i <= k && BlockEnd(a, i) + 2 <= k
    ensures BlockEnd(b, i) == BlockEnd(a, i)
  {
    forall j: nat | j < k ensures a[j] == b[j] {
      SameAt(a, b, k, j);
    }
    var e := BlockEnd(a, i);
    assert ClosesAt(a, e) && ClosesAt(b, e);
    assert forall j: nat :: i <= j < e ==> ClosesAt(b, j) == ClosesAt(a, j);
  }

  lemma {:induction false} TopLevelLocal(a: string, b: string, i: nat, k: nat, s: State)
    requires SameUpTo(a, b, k) && TopLevel(a, i, k)
    ensures TopLevel(b, i, k) && After(a, i, k, s) == After(b, i, k, s)
    decreases k - i
  {
    if i < k {
      TopLevelIsPast(a, TokenEnd(a, i), k);
      TokenEndLocal(a, b, i, k);
      TopLevelLocal(a, b, TokenEnd(a, i), k, Step(a, i, s));
    }
  }

  lemma {:induction false} LitEndShift(pre: string, b: string, i: nat, q: char, escaped: bool)
    requires i <= |b|
    ensures LitEnd(pre + b, |pre| + i, q, escaped) == |pre| + LitEnd(b, i, q, escaped)
    decreases |b| - i
  {
    if i < |b| {
      assert (pre + b)[|pre| + i] == b[i];
      LitEndShift(pre, b, i + 1, q, true);
      LitEndShift(pre, b, i + 1, q, false);
    }
  }

  lemma {:induction false} FindShift(pre: string, b: string, i: nat, c: char)
    requires i <= |b|
    ensures Find(pre + b, |pre| + i, c) == |pre| + Find(b, i, c)
    decreases |b| - i
  {
    if i < |b| {
      assert (pre + b)[|pre| + i] == b[i];
      FindShift(pre, b, i + 1, c);
    }
  }

  lemma {:induction false} BlockEndShift(pre: string, b: string, i: nat)
    requires i <= |b|
    ensures BlockEnd(pre + b, |pre| + i) == |pre| + BlockEnd(b, i)
    decreases |b| - i
  {
    if i + 1 < |b| {
      assert (pre + b)[|pre| + i] == b[i] && (pre + b)[|pre| + i + 1] == b[i + 1];
      BlockEndShift(pre, b, i + 1);
    }
  }

  lemma {:induction false} TokenShift(pre: string, b: string, i: nat)
    requires i < |b|
    ensures (pre + b)[|pre| + i] == b[i] && KindAt(pre + b, |pre| + i) == KindAt(b, i)
    ensures TokenEnd(pre + b, |pre| + i) == |pre| + TokenEnd(b, i)
  {
    hide LitEnd, Find, BlockEnd;
    var t := pre + b;
    assert t[|pre| + i] == b[i];
    if i + 1 < |b| {
      assert t[|pre| + i + 1] == b[i + 1];
    }
    match KindAt(b, i)
    case Quoted => LitEndShift(pre, b, i + 1, b[i], false);
    case Ticked => FindShift(pre, b, i + 1, '`');
    case LineComment => FindShift(pre, b, i, '\n');
    case BlockComment => BlockEndShift(pre, b, i + 2);
    case Semicolon =>
    case Plain =>
  }

  lemma {:induction false} GoShift(pre: string, b: string, i: nat, s: State)
    ensures Go(pre + b, |pre| + i, s) == Go(b, i, s)
    decreases if i < |b| then |b| - i else 0
  {
    hide KindAt, TokenEnd, PlainStep, Flush;
    if i < |b| {
      TokenShift(pre, b, i);
      GoShift(pre, b, TokenEnd(b, i), Step(b, i, s));
    }
  }

  /** The scan is compositional at top-level positions: the part before one matters only through the
      state it leaves, which is computed from that part alone. */
  lemma {:induction false} ScanComposes(pre: string, post: string, s: State)
    requires TopLevel(pre + post, 0, |pre|)
    ensures TopLevel(pre, 0, |pre|)
    ensures Go(pre + post, 0, s) == Go(post, 0, After(pre, 0, |pre|, s))
  {
    var t := pre + post;
    assert t[..|pre|] == pre[..|pre|];
    TopLevelLocal(t, pre, 0, |pre|, s);
    GoVia(t, 0, |pre|, s);
    GoShift(pre, post, 0, After(t, 0, |pre|, s));
  }

  // ----- literals -----

  /** Every quote `q` and every backslash of `x` is escaped by a backslash. */
  ghost predicate Escaped(x: string, q: char) {
    x == "" || (if x[0] == '\\' then |x| >= 2 && Escaped(x[2..], q) else x[0] != q && Escaped(x[1..], q))
  }

  /** A literal closes exactly behind `x` if and only if `x` is escaped. */
  lemma {:induction false} ClosesBehindIff(x: string, q: char, post: string)
    requires q != '\\'
    ensures LitEnd(x + [q] + post, 0, q, false) == |x| <==> Escaped(x, q)
    decreases |x|
  {
    var t := x + [q] + post;
    if x == "" {
    } else if x[0] == '\\' && |x| >= 2 {
      assert t[0] == x[0] && t[1] == x[1];
      assert t == x[..2] + (x[2..] + [q] + post);
      LitEndShift(x[..2], x[2..] + [q] + post, 0, q, false);
      ClosesBehindIff(x[2..], q, post);
    } else if x[0] == '\\' {
      assert t[0] == x[0] && t[1] == q;
      assert LitEnd(t, 0, q, false) == LitEnd(t, 1, q, true) == LitEnd(t, 2, q, false);
    } else if x[0] == q {
      assert t[0] == q;
    } else {
      assert t[0] == x[0];
      assert t == x[..1] + (x[1..] + [q] + post);
      LitEndShift(x[..1], x[1..] + [q] + post, 0, q, false);
      ClosesBehindIff(x[1..], q, post);
    }
  }

  function WithLiteral(pre: string, q: char, x: string, post: string): string {
    pre + ([q] + (x + [q] + post))
  }

  lemma {:induction false} LiteralEnds(q: char, x: string, post: string)
    requires (q == '\'' || q == '"') && Escaped(x, q)
    ensures TokenEnd([q] + (x + [q] + post), 0) == |x| + 2
  {
    hide Escaped;
    var rest := x + [q] + post;
    LitEndShift([q], rest, 0, q, false);
    ClosesBehindIff(x, q, post);
  }

  lemma {:induction false} LiteralIsOneToken(pre: string, q: char, x: string, post: string, s: State)
    requires (q == '\'' || q == '"') && Escaped(x, q)
    ensures Go(WithLiteral(pre, q, x, post), |pre|, s) == Go(post, 0, Blank(Flush(s)))
  {
    hide TokenEnd, Go, Flush, Escaped;
    var lit := [q] + (x + [q] + post);
    GoShift(pre, lit, 0, s);
    LiteralEnds(q, x, post);
    GoStep(lit, 0, s);
    assert lit == ([q] + x + [q]) + post;
    GoShift([q] + x + [q], post, 0, Blank(Flush(s)));
  }

  /** Non-interference: the content of a quoted literal at a top-level position never shows in the
      scan. Any escaped content may replace any other. */
  lemma {:induction false} LiteralContentIsInvisible(pre: string, q: char, x: string, y: string, post: string)
    requires (q == '\'' || q == '"') && Escaped(x, q) && Escaped(y, q)
    requires TopLevel(WithLiteral(pre, q, x, post), 0, |pre|)
    ensures ScanOf(WithLiteral(pre, q, x, post)) == ScanOf(WithLiteral(pre, q, y, post))
    ensures TopLevel(WithLiteral(pre, q, y, post), 0, |pre|)
  {
    var a, b := WithLiteral(pre, q, x, post), WithLiteral(pre, q, y, post);
    assert a[..|pre|] == pre == b[..|pre|] && a[|pre|] == q == b[|pre|];
    TopLevelLocal(a, b, 0, |pre|, START);
    GoVia(a, 0, |pre|, START);
    GoVia(b, 0, |pre|, START);
    var s := After(a, 0, |pre|, START);
    LiteralIsOneToken(pre, q, x, post, s);
    LiteralIsOneToken(pre, q, y, post, s);
  }

  // ----- what the result means -----

  ghost function TopSemicolons(b: string, i: nat): set<nat> {
    set k: nat | i <= k < |b| && TopLevel(b, i, k) && b[k] == ';'
  }

  /** The count is the number of top-level semicolons: those in literals and comments do not count. */
  lemma {:induction false} SemicolonsAreTopLevel(b: string, i: nat, s: State)
    ensures Go(b, i, s).semis == s.semis + |TopSemicolons(b, i)|
    decreases if i < |b| then |b| - i else 0
  {
    if i >= |b| {
      assert TopSemicolons(b, i) == {};
    } else {
      var e := TokenEnd(b, i);
      SemicolonsAreTopLevel(b, e, Step(b, i, s));
      StepCounts(b, i, s);
      hide TokenEnd, Step, KindAt, Go;
      GoStep(b, i, s);
      var rest := TopSemicolons(b, e);
      forall k: nat ensures k in TopSemicolons(b, i) <==> (k == i && b[i] == ';') || k in rest {
        if i < k < |b| && TopLevel(b, e, k) {
          TopLevelIsPast(b, e, k);
        }
      }
      if b[i] == ';' {
        assert TopSemicolons(b, i) == rest + {i};
      } else {
        assert TopSemicolons(b, i) == rest;
      }
    }
  }

  lemma {:induction false} StepCounts(b: string, i: nat, s: State)
    requires i < |b|
    ensures Step(b, i, s).semis == s.semis + if b[i] == ';' then 1 else 0
  {
  }

  predicate CleanChar(c: char) {
    c != '\'' && c != '"' && c != '`' && c != '#' && c != ';' && !('A' <= c <= 'Z')
  }

  ghost predicate Clean(s: State) {
    (forall c :: c in s.sk ==> CleanChar(c)) && forall c :: c in s.pending ==> IsWord(c) || c == '.'
  }

  lemma {:induction false} FlushKeepsClean(s: State)
    requires Clean(s)
    ensures Clean(Flush(s)) && Clean(Blank(Flush(s)))
  {
    var low := LowerAll(s.pending);
    forall c | c in low ensures CleanChar(c) {
      var j :| 0 <= j < |low| && low[j] == c;
      assert s.pending[j] in s.pending;
    }
  }

  lemma {:induction false} GoKeepsClean(b: string, i: nat, s: State)
    requires Clean(s)
    ensures Clean(Go(b, i, s))
    decreases if i < |b| then |b| - i else 0
  {
    FlushKeepsClean(s);
    if i < |b| {
      GoKeepsClean(b, TokenEnd(b, i), Step(b, i, s));
    }
  }

  /** The two characters that open a comment. */
  predicate Sign(c: char, d: char) {
    (c == '-' && d == '-') || (c == '/' && d == '*')
  }

  ghost predicate NoSigns(sk: string) {
    forall j, k :: 0 <= j && k == j + 1 && k < |sk| ==> !Sign(sk[j], sk[k])
  }

  /** Before position `i`: the skeleton holds no comment sign, and the next character completes none. */
  ghost predicate Unsigned(b: string, i: nat, s: State) {
    && NoSigns(s.sk) && Clean(s)
    && (s.pending == "" && s.sk != "" && i < |b| ==> !Sign(s.sk[|s.sk| - 1], b[i]))
  }

  lemma {:induction false} UnsignedIs(b: string, i: nat, s: State)
    requires Unsigned(b, i, s)
    ensures NoSigns(s.sk) && Clean(s)
  {
  }

  lemma {:induction false} AppendKeepsUnsigned(sk: string, t: string)
    requires NoSigns(sk) && NoSigns(t)
    requires sk != "" && t != "" ==> !Sign(sk[|sk| - 1], t[0])
    ensures NoSigns(sk + t)
  {
  }

  /** Neither a word nor the blank behind it belongs to a comment sign. */
  lemma {:induction false} FlushKeepsUnsigned(s: State)
    requires Clean(s) && NoSigns(s.sk)
    ensures Clean(Flush(s)) && NoSigns(Flush(s).sk)
    ensures Clean(Blank(Flush(s))) && NoSigns(Blank(Flush(s)).sk)
  {
    FlushKeepsClean(s);
    var low := LowerAll(s.pending);
    forall j | 0 <= j < |low| ensures low[j] != '-' && low[j] != '*' && low[j] != '/' {
      assert s.pending[j] in s.pending;
    }
    AppendKeepsUnsigned(s.sk, low);
    AppendKeepsUnsigned(Flush(s).sk, " ");
  }

  lemma {:induction false} PlainKeepsUnsigned(b: string, i: nat, s: State)
    requires i < |b| && Unsigned(b, i, s) && KindAt(b, i).Plain?
    ensures Unsigned(b, i + 1, PlainStep(b[i], s))
  {
    FlushKeepsUnsigned(s);
    if s.pending == "" {
      AppendKeepsUnsigned(s.sk, [b[i]]);
    }
    hide Flush, NoSigns;
  }

  lemma {:induction false} BlankIsUnsigned(b: string, i: nat, s: State, semis: nat)
    requires Clean(s) && NoSigns(s.sk)
    ensures Unsigned(b, i, Blank(Flush(s).(semis := semis)))
  {
    FlushKeepsUnsigned(s);
    hide NoSigns;
  }

  lemma {:induction false} StepKeepsUnsigned(b: string, i: nat, s: State)
    requires i < |b| && Unsigned(b, i, s)
    ensures Unsigned(b, TokenEnd(b, i), Step(b, i, s))
  {
    UnsignedIs(b, i, s);
    hide Unsigned, Clean, NoSigns, PlainStep, Flush, LitEnd, Find, BlockEnd;
    match KindAt(b, i)
    case Plain => PlainKeepsUnsigned(b, i, s);
    case Semicolon => BlankIsUnsigned(b, TokenEnd(b, i), s, Flush(s).semis + 1);
    case _ => BlankIsUnsigned(b, TokenEnd(b, i), s, Flush(s).semis);
  }

  lemma {:induction false} GoKeepsUnsigned(b: string, i: nat, s: State)
    requires Unsigned(b, i, s)
    ensures NoSigns(Go(b, i, s).sk)
    decreases if i < |b| then |b| - i else 0
  {
    hide Unsigned, Step, TokenEnd, Flush;
    GoStep(b, i, s);
    if i < |b| {
      StepKeepsUnsigned(b, i, s);
      GoKeepsUnsigned(b, TokenEnd(b, i), Step(b, i, s));
    } else {
      UnsignedIs(b, i, s);
      FlushKeepsUnsigned(s);
    }
  }

  /** The skeleton holds no quote, backtick, semicolon, upper-case letter or comment sign of any kind. */
  lemma {:induction false} SkeletonIsClean(b: string)
    ensures var sk := ScanOf(b).skeleton;
      (forall c :: c in sk ==> CleanChar(c)) && NoSigns(sk)
  {
    GoKeepsClean(b, 0, START);
    GoKeepsUnsigned(b, 0, START);
  }

  // ----- the words of a text -----

  function UpperAll(s: string): (r: string)
    ensures |r| == |s| && forall i :: 0 <= i < |s| ==> r[i] == Upper(s[i])
  {
    seq(|s|, i requires 0 <= i < |s| => Upper(s[i]))
  }

  /** A blank, an opening parenthesis, a literal, a comment or a semicolon ends a word; no other sign does. */
  predicate Breaks(b: string, i: nat)
    requires i < |b|
  {
    !KindAt(b, i).Plain? || IsSpace(b[i]) || b[i] == '('
  }

  function RunEnd(b: string, i: nat): (e: nat)
    requires i <= |b|
    ensures i <= e <= |b| && (e < |b| ==> Breaks(b, e)) && forall k :: i <= k < e ==> !Breaks(b, k)
    decreases |b| - i
  {
    if i == |b| || Breaks(b, i) then i else RunEnd(b, i + 1)
  }

  /** What a text consists of at top level. */
  datatype Piece = Gap | Run(text: string)

  ghost function Pieces(b: string, i: nat): seq<Piece>
    decreases if i < |b| then |b| - i else 0
  {
    if i >= |b| then []
    else if Breaks(b, i) then [Gap] + Pieces(b, TokenEnd(b, i))
    else [Run(b[i..RunEnd(b, i)])] + Pieces(b, RunEnd(b, i))
  }

  /** Where the word of a run starts; the signs before it do not belong to it. */
  function WordStart(x: string): (k: nat)
    ensures k <= |x| && (k < |x| ==> IsWord(x[k])) && forall j :: 0 <= j < k ==> !IsWord(x[j])
  {
    if x == "" || IsWord(x[0]) then 0 else 1 + WordStart(x[1..])
  }

  /** The word characters and the dots. */
  function Kept(x: string): string {
    if x == "" then ""
    else (if IsWord(x[0]) || x[0] == '.' then [x[0]] else []) + Kept(x[1..])
  }

  /** The word of a run, in upper case. Signs inside the run are dropped, so that what they separate
      becomes one word. */
  function Word(x: string): string {
    UpperAll(Kept(x[WordStart(x)..]))
  }

  function FirstWord(ps: seq<Piece>): string {
    if ps == [] then ""
    else if ps[0].Run? && Word(ps[0].text) != "" then Word(ps[0].text)
    else FirstWord(ps[1..])
  }

  /** What the skeleton holds for a piece. */
  function Shown(p: Piece): string {
    match p
    case Gap => " "
    case Run(x) => x[..WordStart(x)] + LowerAll(Word(x))
  }

  function Render(ps: seq<Piece>): string {
    if ps == [] then "" else Shown(ps[0]) + Render(ps[1..])
  }

  lemma {:induction false} LowerUpper(s: string)
    ensures LowerAll(UpperAll(s)) == LowerAll(s) && UpperAll(LowerAll(s)) == UpperAll(s)
  {
  }

  function Read(x: string, s: State): State {
    if x == "" then s else Read(x[1..], PlainStep(x[0], s))
  }

  lemma {:induction false} PlainIsRead(b: string, i: nat, s: State)
    requires i < |b| && !Breaks(b, i)
    ensures Go(b, i, s) == Go(b, i + 1, PlainStep(b[i], s))
  {
    hide PlainStep, Flush, LitEnd, Find, BlockEnd;
    GoStep(b, i, s);
  }

  lemma {:induction false} RunIsRead(b: string, i: nat, e: nat, s: State)
    requires i <= e <= |b| && forall k :: i <= k < e ==> !Breaks(b, k)
    ensures Go(b, i, s) == Go(b, e, Read(b[i..e], s))
    decreases e - i
  {
    hide PlainStep, Go, Breaks;
    if i == e {
      assert b[i..e] == "";
    } else {
      PlainIsRead(b, i, s);
      RunIsRead(b, i + 1, e, PlainStep(b[i], s));
      assert b[i..e][0] == b[i] && b[i..e][1..] == b[i + 1..e];
    }
  }

  lemma {:induction false} CharIsRead(c: char, s: State)
    requires s.pending != "" && !IsSpace(c) && c != '('
    ensures PlainStep(c, s) == s.(pending := s.pending + UpperAll(Kept([c])))
  {
    if IsWord(c) || c == '.' {
      KeptOne(c);
      assert UpperAll([c]) == [Upper(c)];
    } else {
      KeptOne(c);
      assert s.pending + UpperAll("") == s.pending;
    }
  }

  lemma {:induction false} KeptOne(c: char)
    ensures Kept([c]) == if IsWord(c) || c == '.' then [c] else ""
  {
    assert [c][1..] == "" && Kept("") == "";
  }

  lemma {:induction false} KeptFirst(x: string)
    requires x != ""
    ensures Kept(x) == Kept([x[0]]) + Kept(x[1..])
  {
    KeptOne(x[0]);
  }

  lemma {:induction false} UpperSum(x: string, y: string)
    ensures UpperAll(x + y) == UpperAll(x) + UpperAll(y)
  {
  }

  /** Once a word is being read. */
  lemma {:induction false} WordIsRead(x: string, s: State)
    requires s.pending != "" && forall c :: c in x ==> !IsSpace(c) && c != '('
    ensures Read(x, s) == s.(pending := s.pending + UpperAll(Kept(x)))
  {
    hide PlainStep, IsSpace, Kept, UpperAll;
    if x == "" {
      NothingKept();
      assert s.pending + "" == s.pending;
    } else {
      var c, t := x[0], PlainStep(x[0], s);
      CharIsRead(c, s);
      assert forall d :: d in x[1..] ==> d in x;
      WordIsRead(x[1..], t);
      KeptFirst(x);
      UpperSum(Kept([c]), Kept(x[1..]));
    }
  }

  lemma {:induction false} NothingKept()
    ensures UpperAll(Kept("")) == ""
  {
  }

  lemma {:induction false} UpperFirst(c: char, x: string)
    ensures UpperAll([c] + x) == [Upper(c)] + UpperAll(x)
  {
  }

  lemma {:induction false} FirstWordChar(c: char, s: State)
    requires s.pending == "" && IsWord(c)
    ensures PlainStep(c, s) == s.(pending := [Upper(c)])
  {
  }

  lemma {:induction false} LeadingSign(c: char, s: State)
    requires s.pending == "" && !IsWord(c) && !IsSpace(c) && c != '('
    ensures PlainStep(c, s) == s.(sk := s.sk + [c])
  {
  }

  lemma {:induction false} RunIs(x: string, s: State)
    requires s.pending == "" && forall c :: c in x ==> !IsSpace(c) && c != '('
    ensures Read(x, s) == s.(sk := s.sk + x[..WordStart(x)], pending := Word(x))
  {
    hide PlainStep, IsSpace, IsWord;
    if x == "" {
      NothingKept();
      assert s.sk + "" == s.sk && x[WordStart(x)..] == "" && x[..WordStart(x)] == "";
    } else {
      assert forall d :: d in x[1..] ==> d in x;
      if IsWord(x[0]) {
        FirstWordChar(x[0], s);
        WordIsRead(x[1..], PlainStep(x[0], s));
        UpperFirst(x[0], Kept(x[1..]));
        assert x[0..] == x && s.sk + x[..0] == s.sk;
      } else {
        LeadingSign(x[0], s);
        RunIs(x[1..], PlainStep(x[0], s));
        var k := WordStart(x[1..]);
        assert x[..k + 1] == [x[0]] + x[1..][..k];
        assert x[k + 1..] == x[1..][k..];
      }
    }
  }

  /** A word ends where the text ends or breaks. */
  lemma {:induction false} EndsWord(b: string, e: nat, s: State)
    requires e < |b| ==> Breaks(b, e)
    ensures Go(b, e, s) == Go(b, e, Flush(s))
  {
    if e < |b| {
      assert Step(b, e, s) == Step(b, e, Flush(s));
    }
  }

  lemma {:induction false} GapIs(b: string, i: nat, s: State)
    requires i < |b| && Breaks(b, i) && s.pending == ""
    ensures Step(b, i, s).sk == s.sk + " " && Step(b, i, s).first == s.first && Step(b, i, s).pending == ""
  {
  }

  lemma {:induction false} RunChars(b: string, i: nat)
    requires i <= |b|
    ensures forall c :: c in b[i..RunEnd(b, i)] ==> !IsSpace(c) && c != '('
  {
    var e := RunEnd(b, i);
    forall c | c in b[i..e] ensures !IsSpace(c) && c != '(' {
      var k :| 0 <= k < e - i && b[i..e][k] == c;
      assert !Breaks(b, i + k);
    }
  }

  /** What reading the pieces `ps` from state `s` on leads to. */
  ghost predicate Finds(s: State, ps: seq<Piece>, r: State) {
    && r.sk == s.sk + Render(ps)
    && r.first == if s.first.Some? then s.first else if FirstWord(ps) == "" then None else Some(FirstWord(ps))
  }

  lemma {:induction false} PieceAhead(p: Piece, ps: seq<Piece>)
    ensures Render([p] + ps) == Shown(p) + Render(ps)
    ensures FirstWord([p] + ps) == if p.Run? && Word(p.text) != "" then Word(p.text) else FirstWord(ps)
  {
    hide Word, Shown;
    assert ([p] + ps)[1..] == ps;
  }

  lemma {:induction false} Regroup(a: string, b: string, c: string)
    ensures a + (b + c) == (a + b) + c
  {
  }

  lemma {:induction false} GapFinds(s: State, t: State, ps: seq<Piece>, r: State)
    requires t.sk == s.sk + " " && t.first == s.first && Finds(t, ps, r)
    ensures Finds(s, [Gap] + ps, r)
  {
    hide Render, FirstWord;
    PieceAhead(Gap, ps);
    Regroup(s.sk, " ", Render(ps));
  }

  lemma {:induction false} RunFinds(s: State, x: string, ps: seq<Piece>, r: State)
    requires Finds(Flush(s.(sk := s.sk + x[..WordStart(x)], pending := Word(x))), ps, r)
    ensures Finds(s, [Run(x)] + ps, r)
  {
    hide Word, Render, FirstWord, Finds, WordStart;
    var lead, w := x[..WordStart(x)], Word(x);
    var t := Flush(s.(sk := s.sk + lead, pending := w));
    PieceAhead(Run(x), ps);
    Regroup(s.sk, lead, LowerAll(w));
    assert t.sk == s.sk + Shown(Run(x));
    WordFound(s, t, x, ps, r);
  }

  lemma {:induction false} WordFound(s: State, t: State, x: string, ps: seq<Piece>, r: State)
    requires t.sk == s.sk + Shown(Run(x)) && Finds(t, ps, r)
    requires t.first == if s.first.Some? || Word(x) == "" then s.first else Some(Word(x))
    ensures Finds(s, [Run(x)] + ps, r)
  {
    hide Word, Render, FirstWord, Shown;
    PieceAhead(Run(x), ps);
    Regroup(s.sk, Shown(Run(x)), Render(ps));
  }

  /** What the scan finds from position `i` on. */
  lemma {:induction false} GoMeans(b: string, i: nat, s: State)
    requires s.pending == ""
    ensures Finds(s, Pieces(b, i), Go(b, i, s))
    decreases if i < |b| then |b| - i else 0
  {
    hide Step, TokenEnd, Word, Breaks, RunEnd, Read, Finds, Go;
    GoStep(b, i, s);
    if i >= |b| {
      NothingFound(s);
    } else if Breaks(b, i) {
      var t := Step(b, i, s);
      GapIs(b, i, s);
      GoMeans(b, TokenEnd(b, i), t);
      GapFinds(s, t, Pieces(b, TokenEnd(b, i)), Go(b, i, s));
    } else {
      var e := RunEnd(b, i);
      var x := b[i..e];
      RunIsRead(b, i, e, s);
      RunChars(b, i);
      RunIs(x, s);
      var t := s.(sk := s.sk + x[..WordStart(x)], pending := Word(x));
      EndsWord(b, e, t);
      GoMeans(b, e, Flush(t));
      RunFinds(s, x, Pieces(b, e), Go(b, i, s));
    }
  }

  lemma {:induction false} NothingFound(s: State)
    requires s.pending == ""
    ensures Finds(s, [], Flush(s))
  {
  }

  /** What the scan returns, read off the text: the first keyword is the first word, and the skeleton holds
      the words in lower case, in order, with a blank for everything that breaks. */
  lemma {:induction false} ScanMeans(b: string)
    ensures ScanOf(b).firstKeyword == FirstWord(Pieces(b, 0))
    ensures ScanOf(b).skeleton == Render(Pieces(b, 0))
  {
    GoMeans(b, 0, START);
    assert "" + Render(Pieces(b, 0)) == Render(Pieces(b, 0));
  }

  // ----- the first keyword -----

  /** No word character stands at top level in [i, k). */
  ghost predicate NoWordIn(b: string, i: nat, k: nat)
    requires k <= |b|
  {
    forall j: nat :: i <= j < k && TopLevel(b, i, j) && KindAt(b, j).Plain? ==> !IsWord(b[j])
  }

  lemma {:induction false} NoWordSoFar(b: string, i: nat, k: nat, s: State)
    requires k <= |b| && TopLevel(b, i, k) && NoWordIn(b, i, k) && s.pending == ""
    ensures After(b, i, k, s).pending == "" && After(b, i, k, s).first == s.first
    decreases k - i
  {
    if i < k {
      var e := TokenEnd(b, i);
      TopLevelIsPast(b, e, k);
      assert TopLevel(b, i, i);
      QuietStep(b, i, s);
      hide Step, TokenEnd, KindAt;
      forall j: nat | e <= j < k && TopLevel(b, e, j) && KindAt(b, j).Plain? ensures !IsWord(b[j]) {
        assert TopLevel(b, i, j);
      }
      NoWordSoFar(b, e, k, Step(b, i, s));
    }
  }

  lemma {:induction false} QuietStep(b: string, i: nat, s: State)
    requires i < |b| && s.pending == "" && (KindAt(b, i).Plain? ==> !IsWord(b[i]))
    ensures Step(b, i, s).pending == "" && Step(b, i, s).first == s.first
  {
  }

  lemma {:induction false} BreaksShift(pre: string, b: string, i: nat)
    requires i < |b|
    ensures Breaks(pre + b, |pre| + i) == Breaks(b, i)
  {
    hide TokenEnd;
    TokenShift(pre, b, i);
  }

  lemma {:induction false} RunEndIs(b: string, i: nat, e: nat)
    requires i <= e <= |b| && (e < |b| ==> Breaks(b, e)) && forall k :: i <= k < e ==> !Breaks(b, k)
    ensures RunEnd(b, i) == e
  {
    hide Breaks;
    var f := RunEnd(b, i);
    assert !(f < e) && !(e < f);
  }

  lemma {:induction false} WordDoesNotBreak(b: string, i: nat)
    requires i < |b| && (IsWord(b[i]) || b[i] == '.')
    ensures !Breaks(b, i)
  {
  }

  lemma {:induction false} KeptSum(x: string, y: string)
    ensures Kept(x + y) == Kept(x) + Kept(y)
  {
    hide IsWord;
    if x == "" {
      assert x + y == y;
    } else {
      KeptSum(x[1..], y);
      KeptFirst(x);
      KeptFirst(x + y);
      assert (x + y)[1..] == x[1..] + y && (x + y)[0] == x[0];
      Regroup(Kept([x[0]]), Kept(x[1..]), Kept(y));
    }
  }

  lemma {:induction false} AllKept(x: string)
    requires forall c :: c in x ==> IsWord(c) || c == '.'
    ensures Kept(x) == x
  {
    if x != "" {
      assert forall c :: c in x[1..] ==> c in x;
      AllKept(x[1..]);
    }
  }

  lemma {:induction false} NoneKeptIff(x: string)
    ensures Kept(x) == "" <==> forall k :: 0 <= k < |x| ==> !IsWord(x[k]) && x[k] != '.'
  {
    if x != "" {
      NoneKeptIff(x[1..]);
      assert forall k :: 0 <= k < |x| - 1 ==> x[1..][k] == x[k + 1];
      if forall k :: 0 <= k < |x[1..]| ==> !IsWord(x[1..][k]) && x[1..][k] != '.' {
        forall k | 1 <= k < |x| ensures !IsWord(x[k]) && x[k] != '.' {
          assert x[1..][k - 1] == x[k];
        }
      }
    }
  }

  /** The first piece of a text that starts with a word. */
  lemma {:induction false} StartsWithWord(w: string, post: string)
    requires w != "" && forall c :: c in w ==> IsWord(c)
    ensures FirstWord(Pieces(w + post, 0)) == UpperAll(w + Kept(post[..RunEnd(post, 0)]))
  {
    var t, r := w + post, RunEnd(post, 0);
    var e := |w| + r;
    forall k | 0 <= k < e ensures !Breaks(t, k) {
      if k < |w| {
        assert t[k] == w[k] && w[k] in w;
        WordDoesNotBreak(t, k);
      } else {
        BreaksShift(w, post, k - |w|);
      }
    }
    if e < |t| {
      BreaksShift(w, post, r);
    }
    hide Breaks, KindAt, TokenEnd, Kept;
    RunEndIs(t, 0, e);
    var x := t[0..e];
    assert x == w + post[..r];
    assert x[0] == w[0] && w[0] in w;
    assert WordStart(x) == 0 && x[0..] == x;
    KeptSum(w, post[..r]);
    AllKept(w);
    PieceAhead(Run(x), Pieces(t, e));
    assert Pieces(t, 0) == [Run(x)] + Pieces(t, e);
  }

  /** The first keyword of a text whose first top-level word starts at `w`: it goes on, behind `w`, with all
      word characters and dots up to the next break. */
  lemma {:induction false} FirstKeywordIs(pre: string, w: string, post: string)
    requires var t := pre + (w + post); TopLevel(t, 0, |pre|) && NoWordIn(t, 0, |pre|)
    requires w != "" && forall c :: c in w ==> IsWord(c)
    ensures ScanOf(pre + (w + post)).firstKeyword == UpperAll(w + Kept(post[..RunEnd(post, 0)]))
  {
    hide Go, After, NoWordIn, TopLevel, Pieces, FirstWord, Kept, RunEnd;
    var t := pre + (w + post);
    GoVia(t, 0, |pre|, START);
    var s := After(t, 0, |pre|, START);
    NoWordSoFar(t, 0, |pre|, START);
    GoShift(pre, w + post, 0, s);
    GoMeans(w + post, 0, s);
    StartsWithWord(w, post);
  }

  /** It is `w` itself, in upper case, if and only if what stands between `w` and the next break holds
      neither a word character nor a dot. */
  lemma {:induction false} FirstKeywordIff(pre: string, w: string, post: string)
    requires var t := pre + (w + post); TopLevel(t, 0, |pre|) && NoWordIn(t, 0, |pre|)
    requires w != "" && forall c :: c in w ==> IsWord(c)
    ensures ScanOf(pre + (w + post)).firstKeyword == UpperAll(w) <==>
      forall k :: 0 <= k < RunEnd(post, 0) ==> !IsWord(post[k]) && post[k] != '.'
  {
    hide ScanOf, NoWordIn, TopLevel;
    FirstKeywordIs(pre, w, post);
    var more := post[..RunEnd(post, 0)];
    NoneKeptIff(more);
    assert forall k :: 0 <= k < |more| ==> more[k] == post[k];
    if Kept(more) == "" {
      assert w + Kept(more) == w;
    }
  }

  /** A sign between two words does not separate them: this select is not recognised as one. */
  lemma {:induction false} SignsDoNotSeparate()
    ensures ScanOf("SELECT*FROM t").firstKeyword == "SELECTFROM"
  {
    hide Breaks, Kept, ScanOf, RunEnd, Upper;
    var w, post := "SELECT", "*FROM t";
    RunOfPost(post);
    assert "" + (w + post) == "SELECT*FROM t";
    FirstKeywordIs("", w, post);
    assert post[..5] == "*" + "FROM";
    KeptSum("*", "FROM");
    KeptOne('*');
    AllKept("FROM");
    assert "SELECT" + ("" + "FROM") == "SELECTFROM";
    UpperIs("SELECTFROM");
  }

  lemma {:induction false} UpperIs(x: string)
    requires forall c :: c in x ==> 'A' <= c <= 'Z'
    ensures UpperAll(x) == x
  {
    assert forall i :: 0 <= i < |x| ==> x[i] in x;
  }

  lemma {:induction false} RunOfPost(post: string)
    requires post == "*FROM t"
    ensures RunEnd(post, 0) == 5
  {
    hide LitEnd, Find, BlockEnd;
    forall k | 0 <= k < 5 ensures !Breaks(post, k) {
    }
    RunEndIs(post, 0, 5);
  }

  lemma {:induction false} RunTopLevel(b: string, i: nat, e: nat, k: nat)
    requires i <= e <= |b| && k <= |b| && forall j :: i <= j < e ==> !Breaks(b, j)
    ensures k < e ==> (TopLevel(b, i, k) <==> i <= k)
    ensures k >= e ==> (TopLevel(b, i, k) <==> TopLevel(b, e, k))
    decreases e - i
  {
    hide LitEnd, Find, BlockEnd;
    if i < e {
      RunTopLevel(b, i + 1, e, k);
      assert !Breaks(b, i);
      assert KindAt(b, i) == Plain;
    } else if k < e {
      assert !TopLevel(b, i, k);
    }
  }

  lemma {:induction false} NoWordIff(x: string)
    ensures Word(x) == "" <==> forall k :: 0 <= k < |x| ==> !IsWord(x[k])
  {
    var tail := x[WordStart(x)..];
    NoneKeptIff(tail);
    if WordStart(x) < |x| {
      assert tail[0] == x[WordStart(x)];
    }
  }

  lemma {:induction false} NoFirstWordIff(b: string, i: nat)
    requires i <= |b|
    ensures FirstWord(Pieces(b, i)) == "" <==> NoWordIn(b, i, |b|)
    decreases |b| - i
  {
    if i < |b| {
      if Breaks(b, i) {
        GapHasNoWord(b, i);
      } else {
        RunHasNoWordIff(b, i);
      }
    }
  }

  lemma {:induction false} GapHasNoWord(b: string, i: nat)
    requires i < |b| && Breaks(b, i)
    ensures FirstWord(Pieces(b, i)) == "" <==> NoWordIn(b, i, |b|)
    decreases |b| - i, 0
  {
    var e := TokenEnd(b, i);
    NoWordAtBreak(b, i);
    PieceAhead(Gap, Pieces(b, e));
    TopLevelPast(b, e);
    hide TokenEnd, KindAt, FirstWord, IsWord, Breaks;
    assert Pieces(b, i) == [Gap] + Pieces(b, e);
    forall j: nat | i < j < |b| ensures TopLevel(b, i, j) <==> TopLevel(b, e, j) {
    }
    if e <= |b| {
      NoFirstWordIff(b, e);
    } else {
      assert FirstWord([]) == "" by {
        NoPieces();
      }
    }
  }

  lemma {:induction false} NoPieces()
    ensures FirstWord([]) == ""
  {
  }

  lemma {:induction false} NoWordAtBreak(b: string, i: nat)
    requires i < |b| && Breaks(b, i)
    ensures KindAt(b, i).Plain? ==> !IsWord(b[i])
  {
  }

  lemma {:induction false} TopLevelPast(b: string, e: nat)
    ensures forall j: nat :: j < |b| && TopLevel(b, e, j) ==> e <= j
  {
    forall j: nat | j < |b| && TopLevel(b, e, j) ensures e <= j {
      TopLevelIsPast(b, e, j);
    }
  }

  lemma {:induction false} RunHasNoWordIff(b: string, i: nat)
    requires i < |b| && !Breaks(b, i)
    ensures FirstWord(Pieces(b, i)) == "" <==> NoWordIn(b, i, |b|)
    decreases |b| - i, 0
  {
    hide KindAt, TopLevel, Word, FirstWord, IsWord, Breaks, RunEnd;
    RunIsLonger(b, i);
    var e := RunEnd(b, i);
    var x := b[i..e];
    NoFirstWordIff(b, e);
    PiecesStep(b, i);
    PieceAhead(Run(x), Pieces(b, e));
    NoWordIff(x);
    NoWordSplit(b, i, e);
  }

  /** Every position of a run is a top-level one. */
  lemma {:induction false} NoWordSplit(b: string, i: nat, e: nat)
    requires i <= e <= |b| && forall k :: i <= k < e ==> !Breaks(b, k)
    ensures NoWordIn(b, i, |b|) <==>
      (forall k :: 0 <= k < e - i ==> !IsWord(b[i..e][k])) && NoWordIn(b, e, |b|)
  {
    hide TopLevel, IsWord, LitEnd, Find, BlockEnd;
    forall j: nat | j < |b|
      ensures j < e ==> (TopLevel(b, i, j) <==> i <= j)
      ensures j >= e ==> (TopLevel(b, i, j) <==> TopLevel(b, e, j))
    {
      RunTopLevel(b, i, e, j);
    }
    TopLevelPast(b, e);
    forall j: nat | i <= j < e ensures KindAt(b, j).Plain? && b[j] == b[i..e][j - i] {
      assert !Breaks(b, j);
    }
    hide KindAt, Breaks;
    forall k | 0 <= k < e - i ensures b[i..e][k] == b[i + k] && TopLevel(b, i, i + k) {
    }
  }

  /** There is no first keyword if and only if no word character stands at top level. */
  lemma {:induction false} NoKeywordIff(b: string)
    ensures ScanOf(b).firstKeyword == "" <==> NoWordIn(b, 0, |b|)
  {
    hide ScanOf, NoWordIn, FirstWord, Pieces;
    ScanMeans(b);
    NoFirstWordIff(b, 0);
  }

  // ----- the words of the skeleton -----

  function Words(ps: seq<Piece>): seq<string> {
    if ps == [] then []
    else (if ps[0].Run? && Word(ps[0].text) != "" then [Word(ps[0].text)] else []) + Words(ps[1..])
  }

  lemma {:induction false} WordsAhead(p: Piece, ps: seq<Piece>)
    ensures Words([p] + ps) == (if p.Run? && Word(p.text) != "" then [Word(p.text)] else []) + Words(ps)
  {
    hide Word;
    assert ([p] + ps)[1..] == ps;
  }

  lemma {:induction false} PiecesStep(b: string, i: nat)
    ensures Pieces(b, i) ==
      if i >= |b| then []
      else if Breaks(b, i) then [Gap] + Pieces(b, TokenEnd(b, i))
      else [Run(b[i..RunEnd(b, i)])] + Pieces(b, RunEnd(b, i))
  {
  }

  lemma {:induction false} PiecesShift(pre: string, b: string, i: nat)
    ensures Pieces(pre + b, |pre| + i) == Pieces(b, i)
    decreases if i < |b| then |b| - i else 0
  {
    hide Breaks, TokenEnd, KindAt, Pieces, RunEnd;
    PiecesStep(b, i);
    PiecesStep(pre + b, |pre| + i);
    if i < |b| {
      BreaksShift(pre, b, i);
      TokenShift(pre, b, i);
      if Breaks(b, i) {
        PiecesShift(pre, b, TokenEnd(b, i));
      } else {
        RunEndShift(pre, b, i);
        RunIsLonger(b, i);
        var e := RunEnd(b, i);
        PiecesShift(pre, b, e);
        assert (pre + b)[|pre| + i..|pre| + e] == b[i..e];
      }
    }
  }

  lemma {:induction false} RunIsLonger(b: string, i: nat)
    requires i < |b| && !Breaks(b, i)
    ensures RunEnd(b, i) > i
  {
  }

  lemma {:induction false} RunEndShift(pre: string, b: string, i: nat)
    requires i <= |b|
    ensures RunEnd(pre + b, |pre| + i) == |pre| + RunEnd(b, i)
  {
    var e := RunEnd(b, i);
    if e < |b| {
      BreaksShift(pre, b, e);
    }
    forall k | |pre| + i <= k < |pre| + e ensures !Breaks(pre + b, k) {
      BreaksShift(pre, b, k - |pre|);
    }
    RunEndIs(pre + b, |pre| + i, |pre| + e);
  }

  /** The word characters and dots of a word stay such in either case. */
  lemma {:induction false} WordChars(x: string)
    ensures var w := LowerAll(Word(x));
      (forall k :: 0 <= k < |w| ==> IsWord(w[k]) || w[k] == '.') && (w != "" ==> IsWord(w[0]))
    ensures UpperAll(Word(x)) == Word(x)
  {
    var tail := x[WordStart(x)..];
    KeptChars(tail);
    var kept := Kept(tail);
    if tail != "" {
      KeptFirst(tail);
      KeptOne(tail[0]);
    }
    assert forall k :: 0 <= k < |kept| ==> kept[k] in kept;
  }

  lemma {:induction false} KeptChars(x: string)
    ensures forall c :: c in Kept(x) ==> IsWord(c) || c == '.'
  {
    if x != "" {
      KeptChars(x[1..]);
      KeptFirst(x);
      KeptOne(x[0]);
    }
  }

  /** What is shown of a run reads as the same word. */
  lemma {:induction false} ShownWord(x: string)
    ensures Word(Shown(Run(x))) == Word(x)
  {
    var lead, w := x[..WordStart(x)], LowerAll(Word(x));
    var y := lead + w;
    WordChars(x);
    hide IsWord, Upper, Lower, Kept;
    StartIs(y, |lead|);
    assert y[|lead|..] == w;
    AllKept(w);
    LowerUpper(Word(x));
  }

  lemma {:induction false} StartIs(y: string, k: nat)
    requires k <= |y| && (k < |y| ==> IsWord(y[k])) && forall j :: 0 <= j < k ==> !IsWord(y[j])
    ensures WordStart(y) == k
  {
    hide IsWord;
    var s := WordStart(y);
    assert !(s < k) && !(k < s);
  }

  /** A sign that does not break stays so before a word, a blank or the end. */
  lemma {:induction false} StillNoBreak(b: string, i: nat, u: string, k: nat)
    requires i < |b| && !Breaks(b, i) && k < |u| && u[k] == b[i]
    requires k + 1 < |u| ==> (u[k + 1] != '-' && u[k + 1] != '*') || (i + 1 < |b| && u[k + 1] == b[i + 1])
    ensures !Breaks(u, k)
  {
  }

  lemma {:induction false} ShownDoesNotBreak(b: string, i: nat, rest: string, k: nat)
    requires i < |b| && (rest == "" || rest[0] == ' ')
    requires var y := Shown(Run(b[i..RunEnd(b, i)])); k < |y|
    ensures var y := Shown(Run(b[i..RunEnd(b, i)])); !Breaks(y + rest, k)
  {
    var e := RunEnd(b, i);
    var x := b[i..e];
    var ws, w := WordStart(x), LowerAll(Word(x));
    var u := x[..ws] + w + rest;
    WordChars(x);
    hide Word, WordStart, LowerAll, RunEnd;
    if k < ws {
      assert u[k] == x[k] == b[i + k];
      assert !Breaks(b, i + k);
      hide Breaks;
      if k + 1 < |u| {
        if k + 1 < ws {
          assert u[k + 1] == x[k + 1] == b[i + k + 1];
        } else if k + 1 < ws + |w| {
          assert u[k + 1] == w[k + 1 - ws];
        } else {
          assert u[k + 1] == rest[k + 1 - ws - |w|];
        }
      }
      StillNoBreak(b, i + k, u, k);
    } else {
      assert u[k] == w[k - ws];
      WordDoesNotBreak(u, k);
    }
  }

  /** The rest of a skeleton behind a run starts with a blank. */
  lemma {:induction false} BlankBehindRun(b: string, e: nat)
    requires e < |b| ==> Breaks(b, e)
    ensures Render(Pieces(b, e)) == "" || Render(Pieces(b, e))[0] == ' '
  {
    hide Breaks, TokenEnd, Word;
    if e < |b| {
      PieceAhead(Gap, Pieces(b, TokenEnd(b, e)));
    }
  }

  lemma {:induction false} RunShows(b: string, i: nat)
    requires i < |b| && !Breaks(b, i)
    ensures Shown(Run(b[i..RunEnd(b, i)])) != ""
  {
    var x := b[i..RunEnd(b, i)];
    assert x[0] == b[i];
    if WordStart(x) == 0 {
      assert x[0..] == x;
      KeptFirst(x);
      KeptOne(x[0]);
    }
  }

  lemma {:induction false} RunAgain(b: string, i: nat, rest: string)
    requires i < |b| && !Breaks(b, i) && (rest == "" || rest[0] == ' ')
    ensures var y := Shown(Run(b[i..RunEnd(b, i)])); Pieces(y + rest, 0) == [Run(y)] + Pieces(rest, 0)
  {
    var y := Shown(Run(b[i..RunEnd(b, i)]));
    RunShows(b, i);
    forall k | 0 <= k < |y| ensures !Breaks(y + rest, k) {
      ShownDoesNotBreak(b, i, rest, k);
    }
    if rest != "" {
      BlankBreaks(y + rest, |y|);
    }
    hide Breaks, Shown, TokenEnd;
    RunEndIs(y + rest, 0, |y|);
    PiecesShift(y, rest, 0);
    assert (y + rest)[0..|y|] == y;
  }

  lemma {:induction false} BlankBreaks(b: string, i: nat)
    requires i < |b| && b[i] == ' '
    ensures Breaks(b, i) && TokenEnd(b, i) == i + 1
  {
  }

  lemma {:induction false} GapAgain(rest: string)
    ensures Pieces(" " + rest, 0) == [Gap] + Pieces(rest, 0)
  {
    hide Breaks, TokenEnd;
    BlankBreaks(" " + rest, 0);
    PiecesShift(" ", rest, 0);
  }

  /** The words of the skeleton are the top-level words of the text, in the same order. */
  lemma {:induction false} RenderKeepsWords(b: string, i: nat)
    ensures Words(Pieces(Render(Pieces(b, i)), 0)) == Words(Pieces(b, i))
    decreases if i < |b| then |b| - i else 0
  {
    hide Breaks, TokenEnd, Word, RunEnd;
    if i < |b| {
      if Breaks(b, i) {
        var rest := Pieces(b, TokenEnd(b, i));
        RenderKeepsWords(b, TokenEnd(b, i));
        PieceAhead(Gap, rest);
        GapAgain(Render(rest));
        WordsAhead(Gap, rest);
        WordsAhead(Gap, Pieces(Render(rest), 0));
      } else {
        var e := RunEnd(b, i);
        var x, rest := b[i..e], Pieces(b, e);
        RenderKeepsWords(b, e);
        PieceAhead(Run(x), rest);
        BlankBehindRun(b, e);
        RunAgain(b, i, Render(rest));
        ShownWord(x);
        WordsAhead(Run(x), rest);
        WordsAhead(Run(Shown(Run(x))), Pieces(Render(rest), 0));
      }
    }
  }

  /** Scanning the skeleton finds the same words as scanning the text, in the same order. */
  lemma {:induction false} SkeletonKeepsWords(b: string)
    ensures Words(Pieces(ScanOf(b).skeleton, 0)) == Words(Pieces(b, 0))
    ensures ScanOf(ScanOf(b).skeleton).firstKeyword == ScanOf(b).firstKeyword
  {
    hide ScanOf, Pieces, Words, Render, FirstWord;
    ScanMeans(b);
    RenderKeepsWords(b, 0);
    ScanMeans(ScanOf(b).skeleton);
    FirstOfWords(Pieces(b, 0));
    FirstOfWords(Pieces(ScanOf(b).skeleton, 0));
  }

  lemma {:induction false} FirstOfWords(ps: seq<Piece>)
    ensures FirstWord(ps) == if Words(ps) == [] then "" else Words(ps)[0]
  {
    hide Word;
    if ps != [] {
      FirstOfWords(ps[1..]);
    }
  }
}
