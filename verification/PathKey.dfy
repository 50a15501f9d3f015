/** Hierarchical pathKeys: base-36 segments joined by '/', whose widths are fixed by depth.
    A subtree query is answered by the string range [p, next sibling of p). */
module PathKey {
  import opened Optional
  import opened Text

  const SLASH: char := '/'
  const TWO63: int := 0x8000_0000_0000_0000

  // ---------------------------------------------------------------- base 36

  /** strconv's digit value: either letter case counts; -1 for anything else. */
  function DigitValue(c: char): int {
    if '0' <= c <= '9' then c as int - '0' as int
    else if 'A' <= c <= 'Z' then c as int - 'A' as int + 10
    else if 'a' <= c <= 'z' then c as int - 'a' as int + 10
    else -1
  }

  function UpperDigit(d: int): char
    requires 0 <= d < 36
  {
    if d < 10 then ('0' as int + d) as char else ('A' as int + d - 10) as char
  }

  predicate IsDigits(s: string) {
    forall i :: 0 <= i < |s| ==> DigitValue(s[i]) >= 0
  }

  predicate IsUpperDigits(s: string) {
    forall i :: 0 <= i < |s| ==> '0' <= s[i] <= '9' || 'A' <= s[i] <= 'Z'
  }

  /** The number a digit string denotes, most significant digit first. */
  function Value(s: string): (n: nat)
    requires IsDigits(s)
  {
    if s == "" then 0 else Value(s[..|s| - 1]) * 36 + DigitValue(s[|s| - 1])
  }

  /** strconv.ParseInt(s, 36, 64): optional sign, digits, 64-bit range. */
  function ParseInt(s: string): Option<int> {
    if s == "" then None
    else
      var signed := s[0] == '+' || s[0] == '-';
      var body := if signed then s[1..] else s;
      if body == "" || !IsDigits(body) then None
      else
        var n: int := Value(body);
        if s[0] == '-' then (if n > TWO63 then None else Some(-n))
        else (if n >= TWO63 then None else Some(n))
  }

  /** strings.ToUpper(strconv.FormatInt(n, 36)) for n >= 0. */
  function FormatNat(n: nat): (s: string) {
    if n < 36 then [UpperDigit(n)] else FormatNat(n / 36) + [UpperDigit(n % 36)]
  }

  function FormatInt(n: int): string {
    if n < 0 then "-" + FormatNat(-n) else FormatNat(n)
  }

  /** int64 increment: the largest value wraps to the smallest. */
  function Increment(n: int): int {
    if n + 1 == TWO63 then -TWO63 else n + 1
  }

  function Zeros(k: nat): (s: string)
    ensures |s| == k && IsUpperDigits(s)
  {
    if k == 0 then "" else "0" + Zeros(k - 1)
  }

  function PadLeft(s: string, width: nat): string {
    if |s| < width then Zeros(width - |s|) + s else s
  }

  // ------------------------------------------------------------- operations

  /** The pathKey with its last segment incremented; unparsable keys come back unchanged. */
  function NextSibling(pathKey: string): string {
    if pathKey == "" then "" else NextOfSegments(pathKey, Split(pathKey, SLASH))
  }

  function NextOfSegments(pathKey: string, segments: seq<string>): string
    requires |segments| >= 1
  {
    var last := segments[|segments| - 1];
    var parsed := ParseInt(last);
    if parsed.None? then pathKey
    else Join(WithLast(segments, PadLeft(FormatInt(Increment(parsed.value)), |last|)), SLASH)
  }

  function WithLast(segments: seq<string>, s: string): (r: seq<string>)
    requires |segments| >= 1
    ensures |r| == |segments|
  {
    segments[|segments| - 1 := s]
  }

  method CalculateNextSiblingPathKey(pathKey: string) returns (r: string)
    ensures r == NextSibling(pathKey)
  {
    if pathKey == "" {
      return "";
    }
    var segments := Split(pathKey, SLASH);
    var lastSegment := segments[|segments| - 1];
    var segmentWidth := |lastSegment|;
    var parsed := ParseInt(lastSegment);
    if parsed.None? {
      return pathKey;
    }
    var num := Increment(parsed.value);
    var nextSegment := FormatInt(num);
    if |nextSegment| < segmentWidth {
      nextSegment := Zeros(segmentWidth - |nextSegment|) + nextSegment;
    }
    assert nextSegment == PadLeft(FormatInt(num), segmentWidth);
    segments := segments[|segments| - 1 := nextSegment];
    return Join(segments, SLASH);
  }

  predicate HasPrefix(s: string, prefix: string) {
    |prefix| <= |s| && s[..|prefix|] == prefix
  }

  predicate IsDescendant(child: string, parent: string) {
    parent == "" || (HasPrefix(child, parent) && |child| > |parent|)
  }

  predicate IsDescendantOrSelf(child: string, parent: string) {
    child == parent || IsDescendant(child, parent)
  }

  /** What { "$gte": p, "$lt": next(p) } selects. */
  predicate InRange(x: string, p: string) {
    !LexLess(x, p) && LexLess(x, NextSibling(p))
  }

  /** The proper ancestors, root first. */
  method GetAncestorPaths(pathKey: string) returns (ancestors: seq<string>)
    ensures pathKey == "" ==> ancestors == []
    ensures pathKey != "" ==>
      var segments := Split(pathKey, SLASH);
      && |ancestors| == |segments| - 1
      && forall i :: 0 <= i < |ancestors| ==> ancestors[i] == Join(segments[..i + 1], SLASH)
  {
    if pathKey == "" {
      return [];
    }
    var segments := Split(pathKey, SLASH);
    if |segments| <= 1 {
      return [];
    }
    ancestors := [];
    var i := 1;
    while i < |segments|
      invariant 1 <= i <= |segments|
      invariant |ancestors| == i - 1
      invariant forall j :: 0 <= j < |ancestors| ==> ancestors[j] == Join(segments[..j + 1], SLASH)
    {
      ancestors := ancestors + [Join(segments[..i], SLASH)];
      i := i + 1;
    }
  }

  // --------------------------------------------------------- well-formedness

  predicate IsSegment(s: string, width: nat) {
    |s| == width && IsUpperDigits(s)
  }

  /** One to twelve upper-case digits, of which 63 bits hold the value. */
  predicate LegalSegment(s: string) {
    1 <= |s| <= 12 && IsUpperDigits(s)
  }

  /** Every width is at least one and small enough that a segment fits in 63 bits. */
  ghost predicate ValidWidths(w: nat -> nat) {
    forall i: nat :: 1 <= w(i) <= 12
  }

  ghost predicate WellFormedFrom(w: nat -> nat, depth: nat, segments: seq<string>)
    decreases |segments|
  {
    segments == [] || (IsSegment(segments[0], w(depth)) && WellFormedFrom(w, depth + 1, segments[1..]))
  }

  ghost predicate WellFormed(w: nat -> nat, pathKey: string) {
    WellFormedFrom(w, 0, Split(pathKey, SLASH))
  }

  /** The documented widths: vendor and customer 6, site and building 4, floor and zone 3. */
  function OrgWidth(depth: nat): nat {
    if depth < 2 then 6 else if depth < 4 then 4 else 3
  }

  predicate AllZ(s: string) {
    forall i :: 0 <= i < |s| ==> s[i] == 'Z'
  }

  function LastSegment(pathKey: string): string {
    var segments := Split(pathKey, SLASH);
    segments[|segments| - 1]
  }

  // ------------------------------------------------------------ digit lemmas

  function Pow36(k: nat): nat {
    if k == 0 then 1 else 36 * Pow36(k - 1)
  }

  lemma {:induction false} UpperDigitsParse(s: string)
    requires IsUpperDigits(s)
    ensures IsDigits(s) && Value(s) < Pow36(|s|)
    ensures Value(s) == Pow36(|s|) - 1 <==> AllZ(s)
  {
    if s == "" {
    } else {
      var front, last := s[..|s| - 1], s[|s| - 1];
      UpperDigitsParse(front);
      assert AllZ(s) <==> AllZ(front) && last == 'Z' by {
        assert forall i :: 0 <= i < |front| ==> front[i] == s[i];
      }
    }
  }

  lemma UpperDigitOrder(c: char, d: char)
    requires IsUpperDigits([c]) && IsUpperDigits([d])
    ensures 0 <= DigitValue(c) < 36 && 0 <= DigitValue(d) < 36
    ensures LexLess([c], [d]) <==> DigitValue(c) < DigitValue(d)
    ensures c == d <==> DigitValue(c) == DigitValue(d)
  {
    assert [c][0] == c && [d][0] == d;
    assert !LexLess([c][1..], [d][1..]);
  }

  /** On equal widths, numeric order is string order. */
  lemma {:induction false} DigitOrder(a: string, b: string)
    requires IsUpperDigits(a) && IsUpperDigits(b) && |a| == |b|
    ensures IsDigits(a) && IsDigits(b)
    ensures LexLess(a, b) <==> Value(a) < Value(b)
    ensures a == b <==> Value(a) == Value(b)
  {
    if a == "" {
    } else {
      var n := |a| - 1;
      var a', c, b', d := a[..n], a[n], b[..n], b[n];
      DigitOrder(a', b');
      UpperDigitOrder(c, d);
      assert Value(a) == Value(a') * 36 + DigitValue(c) && Value(b) == Value(b') * 36 + DigitValue(d);
      assert a == a' + [c] && b == b' + [d];
      assert LexLess(a, b) <==> LexLess(a', b') || (a' == b' && LexLess([c], [d])) by {
        LexAppend(a', [c], b', [d]);
      }
    }
  }

  lemma {:induction false} FormatParses(n: nat)
    ensures IsUpperDigits(FormatNat(n)) && IsDigits(FormatNat(n)) && Value(FormatNat(n)) == n
    ensures |FormatNat(n)| >= 1
  {
    var s := FormatNat(n);
    if n < 36 {
      assert s[..0] == "";
    } else {
      FormatParses(n / 36);
      assert s[..|s| - 1] == FormatNat(n / 36);
    }
  }

  lemma {:induction false} FormatFits(n: nat, k: nat)
    requires k >= 1 && n < Pow36(k)
    ensures |FormatNat(n)| <= k
  {
    if n < 36 {
    } else {
      assert Pow36(1) == 36;
      FormatFits(n / 36, k - 1);
    }
  }

  /** A carry out of k digits writes "1" followed by k zeros. */
  lemma {:induction false} FormatCarry(k: nat)
    ensures FormatNat(Pow36(k)) == "1" + Zeros(k)
  {
    if k == 0 {
    } else {
      FormatCarry(k - 1);
      assert Pow36(k) / 36 == Pow36(k - 1) && Pow36(k) % 36 == 0;
      assert Pow36(k) >= 36 by { PowPositive(k - 1); }
      ZerosSnoc(k - 1);
    }
  }

  lemma {:induction false} PowPositive(k: nat)
    ensures Pow36(k) >= 1
  {
    if k == 0 {
    } else {
      PowPositive(k - 1);
    }
  }

  lemma Assoc(a: string, b: string, c: string)
    ensures a + b + c == a + (b + c)
  {
  }

  lemma {:induction false} ZerosSnoc(k: nat)
    ensures Zeros(k) + "0" == Zeros(k + 1)
  {
    if k == 0 {
    } else {
      ZerosSnoc(k - 1);
      Assoc("0", Zeros(k - 1), "0");
    }
  }

  lemma {:induction false} PaddingKeepsValue(k: nat, s: string)
    requires IsUpperDigits(s) && IsDigits(s)
    ensures IsDigits(Zeros(k) + s) && Value(Zeros(k) + s) == Value(s)
  {
    var t := Zeros(k) + s;
    if s == "" {
      assert t == Zeros(k);
      ZerosAreZero(k);
    } else {
      PaddingKeepsValue(k, s[..|s| - 1]);
      assert t[..|t| - 1] == Zeros(k) + s[..|s| - 1];
    }
  }

  lemma {:induction false} ZerosAreZero(k: nat)
    ensures IsDigits(Zeros(k)) && Value(Zeros(k)) == 0
  {
    if k == 0 {
    } else {
      ZerosAreZero(k - 1);
      ZerosSnoc(k - 1);
      assert Zeros(k)[..k - 1] == Zeros(k - 1);
    }
  }

  lemma {:induction false} PowMonotone(j: nat, k: nat)
    requires j <= k
    ensures Pow36(j) <= Pow36(k)
  {
    if j == k {
    } else {
      PowMonotone(j, k - 1);
    }
  }

  /** A segment of legal width parses to its value, far from the 64-bit limits. */
  lemma SegmentParses(s: string, k: nat)
    requires IsSegment(s, k) && 1 <= k <= 12
    ensures IsDigits(s) && ParseInt(s) == Some(Value(s))
    ensures Value(s) + 1 < TWO63
  {
    UpperDigitsParse(s);
    PowMonotone(k, 12);
    assert Pow36(12) < TWO63 by {
      assert Pow36(4) == 1679616;
      assert Pow36(8) == 36 * (36 * (36 * (36 * Pow36(4))));
      assert Pow36(12) == 36 * (36 * (36 * (36 * Pow36(8))));
    }
    assert s[0] != '+' && s[0] != '-';
  }

  function NextSegment(s: string): string
    requires IsDigits(s)
  {
    PadLeft(FormatNat(Value(s) + 1), |s|)
  }

  /** Short of all 'Z', the next segment keeps its width and is one larger. */
  lemma NextSegmentIsSuccessor(s: string, k: nat)
    requires IsSegment(s, k) && k >= 1 && !AllZ(s)
    ensures IsDigits(s)
    ensures IsSegment(NextSegment(s), k) && IsDigits(NextSegment(s))
    ensures Value(NextSegment(s)) == Value(s) + 1
  {
    UpperDigitsParse(s);
    var n := Value(s) + 1;
    FormatParses(n);
    FormatFits(n, k);
    PadLeftFits(FormatNat(n), k);
  }

  lemma PadLeftFits(text: string, k: nat)
    requires IsUpperDigits(text) && IsDigits(text) && |text| <= k
    ensures IsSegment(PadLeft(text, k), k) && IsDigits(PadLeft(text, k))
    ensures Value(PadLeft(text, k)) == Value(text)
  {
    var pad: nat := k - |text|;
    if pad > 0 {
      UpperDigitsConcat(Zeros(pad), text);
      PaddingKeepsValue(pad, text);
    }
  }

  lemma UpperDigitsConcat(a: string, b: string)
    requires IsUpperDigits(a) && IsUpperDigits(b)
    ensures IsUpperDigits(a + b)
  {
  }

  /** On all 'Z' the carry adds a digit, and the result sorts below. */
  lemma CarrySegment(s: string, k: nat)
    requires IsSegment(s, k) && k >= 1 && AllZ(s)
    ensures IsDigits(s)
    ensures NextSegment(s) == "1" + Zeros(k) && LexLess(NextSegment(s), s)
  {
    UpperDigitsParse(s);
    FormatCarry(k);
    assert NextSegment(s)[0] == '1' && s[0] == 'Z';
  }

  // ------------------------------------------------------- order isomorphism

  predicate AllDigits(segments: seq<string>) {
    forall i :: 0 <= i < |segments| ==> IsDigits(segments[i])
  }

  /** Each segment read as a number. */
  function Numbers(segments: seq<string>): (ns: seq<nat>)
    requires AllDigits(segments)
    ensures |ns| == |segments|
    ensures forall i :: 0 <= i < |ns| ==> ns[i] == Value(segments[i])
  {
    if segments == [] then [] else [Value(segments[0])] + Numbers(segments[1..])
  }

  /** Lexicographic order on number paths: a parent comes before its children. */
  predicate PathLess(a: seq<nat>, b: seq<nat>) {
    b != [] && (a == [] || a[0] < b[0] || (a[0] == b[0] && PathLess(a[1..], b[1..])))
  }

  lemma {:induction false} WellFormedParses(w: nat -> nat, depth: nat, segments: seq<string>)
    requires WellFormedFrom(w, depth, segments)
    ensures AllDigits(segments)
    ensures forall i :: 0 <= i < |segments| ==> SLASH !in segments[i]
    decreases |segments|
  {
    if segments == [] {
    } else {
      WellFormedParses(w, depth + 1, segments[1..]);
      UpperDigitsParse(segments[0]);
      forall i | 0 <= i < |segments| ensures IsDigits(segments[i]) && SLASH !in segments[i] {
        assert i > 0 ==> segments[i] == segments[1..][i - 1];
      }
    }
  }

  lemma {:induction false} WellFormedAt(w: nat -> nat, depth: nat, segments: seq<string>, i: nat)
    requires WellFormedFrom(w, depth, segments) && i < |segments|
    ensures IsSegment(segments[i], w(depth + i))
    decreases |segments|
  {
    if i == 0 {
    } else {
      WellFormedAt(w, depth + 1, segments[1..], i - 1);
    }
  }

  function TailText(segments: seq<string>): string {
    if segments == [] then "" else [SLASH] + Join(segments, SLASH)
  }

  lemma {:induction false} SegmentOrder(w: nat -> nat, depth: nat, a: seq<string>, b: seq<string>)
    requires |a| >= 1 && |b| >= 1
    requires WellFormedFrom(w, depth, a) && WellFormedFrom(w, depth, b)
    ensures AllDigits(a) && AllDigits(b)
    ensures LexLess(Join(a, SLASH), Join(b, SLASH)) <==> PathLess(Numbers(a), Numbers(b))
    decreases |a|
  {
    WellFormedParses(w, depth, a);
    WellFormedParses(w, depth, b);
    var a', b' := a[1..], b[1..];
    assert Join(a, SLASH) == a[0] + TailText(a') && Join(b, SLASH) == b[0] + TailText(b');
    LexAppend(a[0], TailText(a'), b[0], TailText(b'));
    DigitOrder(a[0], b[0]);
    assert Numbers(a)[1..] == Numbers(a') && Numbers(b)[1..] == Numbers(b');
    if a' == [] || b' == [] {
    } else {
      SegmentOrder(w, depth + 1, a', b');
      LexAppend([SLASH], Join(a', SLASH), [SLASH], Join(b', SLASH));
    }
  }

  /** Byte order on well-formed pathKeys is the lexicographic order of their number paths. */
  lemma OrderIsomorphism(w: nat -> nat, x: string, y: string)
    requires WellFormed(w, x) && WellFormed(w, y)
    ensures AllDigits(Split(x, SLASH)) && AllDigits(Split(y, SLASH))
    ensures LexLess(x, y) <==> PathLess(Numbers(Split(x, SLASH)), Numbers(Split(y, SLASH)))
  {
    JoinSplit(x, SLASH);
    JoinSplit(y, SLASH);
    SegmentOrder(w, 0, Split(x, SLASH), Split(y, SLASH));
  }

  // ------------------------------------------------------------ main results

  /** The path of the next sibling. */
  function Successor(p: seq<nat>): (q: seq<nat>)
    requires |p| >= 1
    ensures |q| == |p|
  {
    if |p| == 1 then [p[0] + 1] else [p[0]] + Successor(p[1..])
  }

  /** Between a path and its successor lie exactly the paths it is a prefix of. */
  lemma {:induction false} PathRange(p: seq<nat>, x: seq<nat>)
    requires |p| >= 1
    ensures !PathLess(x, p) && PathLess(x, Successor(p)) <==> p <= x
  {
    if x == [] {
    } else if |p| == 1 {
      assert !PathLess(x[1..], Successor(p)[1..]);
      assert p <= x <==> p[0] == x[0];
    } else {
      PathRange(p[1..], x[1..]);
      assert Successor(p)[1..] == Successor(p[1..]);
      PrefixCons(p, x);
    }
  }

  lemma {:induction false} SuccessorIsUpdate(p: seq<nat>)
    requires |p| >= 1
    ensures Successor(p) == p[|p| - 1 := p[|p| - 1] + 1]
  {
    if |p| == 1 {
    } else {
      SuccessorIsUpdate(p[1..]);
    }
  }

  /** What next(p) is: p's segments with the last one replaced. */
  lemma NextSiblingSegments(w: nat -> nat, p: string)
    requires ValidWidths(w) && WellFormed(w, p)
    ensures IsDigits(LastSegment(p))
    ensures p != ""
    ensures NextSibling(p) == Join(WithLast(Split(p, SLASH), NextSegment(LastSegment(p))), SLASH)
  {
    var segments := Split(p, SLASH);
    WellFormedAt(w, 0, segments, |segments| - 1);
    NextOfLegal(p, segments);
  }

  /** Any key whose last segment has a legal width gets that segment replaced by the next one. */
  lemma NextOfLegal(p: string, segments: seq<string>)
    requires |segments| >= 1 && LegalSegment(segments[|segments| - 1])
    ensures IsDigits(segments[|segments| - 1])
    ensures NextOfSegments(p, segments) == Join(WithLast(segments, NextSegment(segments[|segments| - 1])), SLASH)
  {
    SegmentParses(segments[|segments| - 1], |segments[|segments| - 1]|);
  }

  /** Replacing the last segment by one of the same width. */
  lemma {:induction false} ReplaceLast(w: nat -> nat, depth: nat, segments: seq<string>, s: string)
    requires |segments| >= 1 && WellFormedFrom(w, depth, segments)
    requires IsSegment(s, w(depth + |segments| - 1))
    ensures WellFormedFrom(w, depth, WithLast(segments, s))
    decreases |segments|
  {
    if |segments| == 1 {
    } else {
      ReplaceLast(w, depth + 1, segments[1..], s);
      assert WithLast(segments, s)[1..] == WithLast(segments[1..], s);
    }
  }

  /** Replacing the last segment by its successor, seen on segments. */
  lemma SuccessorSegments(w: nat -> nat, segments: seq<string>, next: seq<string>)
    requires ValidWidths(w) && |segments| >= 1 && WellFormedFrom(w, 0, segments)
    requires var last := segments[|segments| - 1];
      !AllZ(last) && IsDigits(last) && next == WithLast(segments, NextSegment(last))
    ensures WellFormedFrom(w, 0, next)
    ensures AllDigits(segments) && AllDigits(next)
    ensures Numbers(next) == Successor(Numbers(segments))
  {
    var n: nat := |segments| - 1;
    var s := NextSegment(segments[n]);
    assert IsSegment(s, w(n)) && IsDigits(s) && Value(s) == Value(segments[n]) + 1 by {
      WellFormedAt(w, 0, segments, n);
      NextSegmentIsSuccessor(segments[n], w(n));
    }
    ReplaceLast(w, 0, segments, s);
    WellFormedParses(w, 0, segments);
    WellFormedParses(w, 0, next);
    ReplaceLastNumber(segments, next, s);
    SuccessorIsUpdate(Numbers(segments));
  }

  lemma ReplaceLastNumber(segments: seq<string>, next: seq<string>, s: string)
    requires |segments| >= 1 && next == WithLast(segments, s)
    requires AllDigits(segments) && AllDigits(next) && IsDigits(s)
    ensures Numbers(next) == Numbers(segments)[|segments| - 1 := Value(s)]
  {
  }

  /** Short of all 'Z', next(p) is itself well formed and is the successor path. */
  lemma NextSiblingNumbers(w: nat -> nat, p: string, ps: seq<string>)
    requires ValidWidths(w) && WellFormed(w, p) && !AllZ(LastSegment(p))
    requires ps == Split(p, SLASH)
    ensures WellFormed(w, NextSibling(p))
    ensures AllDigits(ps) && AllDigits(Split(NextSibling(p), SLASH))
    ensures Numbers(Split(NextSibling(p), SLASH)) == Successor(Numbers(ps))
  {
    assert IsDigits(LastSegment(p)) by { NextSiblingSegments(w, p); }
    var next := WithLast(ps, NextSegment(LastSegment(p)));
    SuccessorSegments(w, ps, next);
    assert Split(NextSibling(p), SLASH) == next by {
      NextSiblingSegments(w, p);
      WellFormedParses(w, 0, next);
      SplitJoin(next, SLASH);
    }
  }

  /** Dropping equal-width heads keeps the prefix relation. */
  lemma {:induction false} SegmentPrefix(w: nat -> nat, depth: nat, p: seq<string>, x: seq<string>)
    requires |p| >= 1 && |x| >= 1
    requires WellFormedFrom(w, depth, p) && WellFormedFrom(w, depth, x)
    ensures HasPrefix(Join(x, SLASH), Join(p, SLASH)) <==> p <= x
    decreases |p|
  {
    var p', x' := p[1..], x[1..];
    var tp, tx := TailText(p'), TailText(x');
    assert Join(p, SLASH) == p[0] + tp && Join(x, SLASH) == x[0] + tx;
    PrefixAppend(p[0], tp, x[0], tx);
    PrefixCons(p, x);
    if p' == [] || x' == [] {
    } else {
      SegmentPrefix(w, depth + 1, p', x');
      PrefixAppend([SLASH], Join(p', SLASH), [SLASH], Join(x', SLASH));
    }
  }

  lemma PrefixAppend(a: string, u: string, b: string, v: string)
    requires |a| == |b|
    ensures HasPrefix(b + v, a + u) <==> a == b && HasPrefix(v, u)
  {
    if HasPrefix(b + v, a + u) {
      assert (b + v)[..|a|] == b && (a + u)[..|a|] == a;
      assert (b + v)[..|a + u|][..|a|] == b;
      assert v[..|u|] == (b + v)[..|a + u|][|a|..] == (a + u)[|a|..] == u;
    }
    if a == b && HasPrefix(v, u) {
      assert (b + v)[..|a + u|] == b + v[..|u|] == a + u;
    }
  }

  /** The plain string-prefix test is exactly the hierarchy: p's segments begin x's. */
  lemma PrefixTestIsHierarchy(w: nat -> nat, p: string, x: string)
    requires ValidWidths(w) && WellFormed(w, p) && WellFormed(w, x)
    ensures IsDescendantOrSelf(x, p) <==> Split(p, SLASH) <= Split(x, SLASH)
    ensures IsDescendant(x, p) <==> Split(p, SLASH) < Split(x, SLASH)
  {
    NextSiblingSegments(w, p);
    JoinSplit(p, SLASH);
    JoinSplit(x, SLASH);
    SegmentPrefix(w, 0, Split(p, SLASH), Split(x, SLASH));
    assert x == p <==> Split(x, SLASH) == Split(p, SLASH);
    assert HasPrefix(x, p) && |x| == |p| ==> x == p;
  }

  lemma PrefixCons<T>(p: seq<T>, x: seq<T>)
    requires p != [] && x != []
    ensures p <= x <==> p[0] == x[0] && p[1..] <= x[1..]
  {
  }

  /** In numbers, the range [p, next(p)) holds exactly the paths that p's path begins. */
  lemma RangeInNumbers(w: nat -> nat, p: string, x: string)
    requires ValidWidths(w) && WellFormed(w, p) && WellFormed(w, x)
    requires !AllZ(LastSegment(p))
    ensures AllDigits(Split(p, SLASH)) && AllDigits(Split(x, SLASH))
    ensures InRange(x, p) <==> Numbers(Split(p, SLASH)) <= Numbers(Split(x, SLASH))
  {
    NextSiblingNumbers(w, p, Split(p, SLASH));
    OrderIsomorphism(w, x, p);
    OrderIsomorphism(w, x, NextSibling(p));
    PathRange(Numbers(Split(p, SLASH)), Numbers(Split(x, SLASH)));
  }

  lemma OrgWidthsAreValid()
    ensures ValidWidths(OrgWidth)
  {
  }

  // ---------------------------------------------------------------- other keys

  /** The empty key is above everything; below any other key are exactly its proper extensions. */
  lemma DescentIsExtension(x: string, p: string)
    ensures p == "" ==> IsDescendant(x, p) && IsDescendantOrSelf(x, p)
    ensures p != "" ==> (IsDescendant(x, p) <==> exists t :: t != "" && x == p + t)
  {
    if p != "" && IsDescendant(x, p) {
      assert x == p + x[|p|..];
    }
    forall t | t != "" && x == p + t ensures HasPrefix(x, p) {
      assert (p + t)[..|p|] == p;
    }
  }

  lemma ParseOfDigits(s: string)
    requires s != "" && IsDigits(s)
    ensures ParseInt(s) == ParseInt("+" + s) == (if Value(s) < TWO63 then Some(Value(s)) else None)
    ensures var n: int := Value(s); ParseInt("-" + s) == if n <= TWO63 then Some(-n) else None
  {
    assert DigitValue(s[0]) >= 0;
    SignedBody('+', s);
    SignedBody('-', s);
  }

  lemma SignedBody(sign: char, s: string)
    ensures ([sign] + s)[0] == sign && ([sign] + s)[1..] == s
  {
  }

  /** Parsing inverts formatting exactly on the 64-bit integers. */
  lemma ParseInvertsFormatIff(n: int)
    ensures ParseInt(FormatInt(n)) == if -TWO63 <= n < TWO63 then Some(n) else None
  {
    if n < 0 {
      FormatParses(-n);
      ParseOfDigits(FormatNat(-n));
    } else {
      FormatParses(n);
      ParseOfDigits(FormatNat(n));
    }
  }

  /** Besides digits of either letter case behind an optional sign, nothing parses. */
  lemma ParseFails(s: string, i: nat)
    ensures 1 <= i < |s| && DigitValue(s[i]) < 0 ==> ParseInt(s) == None
    ensures s == "" || s == "+" || s == "-" ==> ParseInt(s) == None
  {
    if 1 <= i < |s| && DigitValue(s[i]) < 0 {
      assert s[1..][i - 1] == s[i];
    }
  }

  function UpperChar(c: char): char {
    if 'a' <= c <= 'z' then (c as int - 'a' as int + 'A' as int) as char else c
  }

  function Upper(s: string): string {
    seq(|s|, i requires 0 <= i < |s| => UpperChar(s[i]))
  }

  /** Letter case changes neither what is a number nor which. */
  lemma {:induction false} UpperKeepsValue(s: string)
    ensures IsDigits(s) <==> IsDigits(Upper(s))
    ensures IsDigits(s) ==> Value(Upper(s)) == Value(s)
  {
    assert forall i :: 0 <= i < |s| ==> DigitValue(Upper(s)[i]) == DigitValue(s[i]);
    if s == "" {
    } else {
      var front := s[..|s| - 1];
      UpperKeepsValue(front);
      assert Upper(s)[..|s| - 1] == Upper(front);
    }
  }

  /** A key whose last segment does not parse comes back unchanged, as does the empty one. */
  lemma UnparsableIsUnchanged(p: string)
    requires p == "" || ParseInt(LastSegment(p)) == None
    ensures NextSibling(p) == p
  {
  }

  /** Any other key keeps its segments but the last, which becomes the next number, 64 bits wide, in
      upper case and padded with zeros to the old width. */
  lemma NextOfParsable(p: string, segments: seq<string>)
    requires |segments| >= 1 && ParseInt(segments[|segments| - 1]).Some?
    ensures
      var n, width := ParseInt(segments[|segments| - 1]).value, |segments[|segments| - 1]|;
      var text := FormatInt(if n == TWO63 - 1 then -TWO63 else n + 1);
      var pad := if |text| < width then width - |text| else 0;
      NextOfSegments(p, segments) == Join(WithLast(segments, Zeros(pad) + text), SLASH)
  {
    var n, width := ParseInt(segments[|segments| - 1]).value, |segments[|segments| - 1]|;
    PadLeftIsZeros(FormatInt(Increment(n)), width);
  }

  lemma PadLeftIsZeros(text: string, width: nat)
    ensures PadLeft(text, width) == Zeros(if |text| < width then width - |text| else 0) + text
  {
    assert Zeros(0) + text == text;
  }
}
