/** When the string range [p, next(p)) is the subtree of p: for any two keys, of any widths. */
module SubtreeRange {
  import opened Optional
  import opened Text
  import opened PathKey

  // ---------------------------------------------------------------- byte order

  lemma {:induction false} LexAsymmetric(a: string, b: string)
    ensures !(LexLess(a, b) && LexLess(b, a))
  {
    if a == "" || b == "" {
    } else {
      LexAsymmetric(a[1..], b[1..]);
    }
  }

  lemma LexIrreflexive(a: string)
    ensures !LexLess(a, a)
  {
    LexAsymmetric(a, a);
  }

  lemma {:induction false} LexTransitive(a: string, b: string, c: string)
    requires LexLess(a, b) && LexLess(b, c)
    ensures LexLess(a, c)
  {
    if a == "" || a[0] < b[0] || b[0] < c[0] {
    } else {
      LexTransitive(a[1..], b[1..], c[1..]);
    }
  }

  /** What lies between two strings with a common stem has that stem. */
  lemma {:induction false} BetweenHasStem(x: string, stem: string, a: string, b: string)
    requires !LexLess(x, stem + a) && LexLess(x, stem + b)
    ensures HasPrefix(x, stem)
  {
    if stem == "" {
    } else {
      assert (stem + a)[1..] == stem[1..] + a && (stem + b)[1..] == stem[1..] + b;
      assert x != "";
      BetweenHasStem(x[1..], stem[1..], a, b);
      assert x == [x[0]] + x[1..] && stem == [stem[0]] + stem[1..];
    }
  }

  // ---------------------------------------------------------- digit successors

  /** next is the digit string after last: equal up to a digit that is one larger, after which
      last has only 'Z' and next only '0'. */
  predicate Follows(last: string, next: string) {
    |last| == |next| && last != "" &&
    if last[0] == next[0] then Follows(last[1..], next[1..])
    else DigitValue(next[0]) == DigitValue(last[0]) + 1 && AllZ(last[1..]) && next[1..] == Zeros(|next| - 1)
  }

  lemma {:induction false} FollowsInLastDigit(front: string, c: char, d: char)
    requires c != d && DigitValue(d) == DigitValue(c) + 1
    ensures Follows(front + [c], front + [d])
  {
    if front == "" {
    } else {
      FollowsInLastDigit(front[1..], c, d);
      assert (front + [c])[1..] == front[1..] + [c] && (front + [d])[1..] == front[1..] + [d];
    }
  }

  lemma {:induction false} FollowsWithCarry(last: string, next: string)
    requires Follows(last, next)
    ensures Follows(last + "Z", next + "0")
  {
    assert (last + "Z")[1..] == last[1..] + "Z" && (next + "0")[1..] == next[1..] + "0";
    if last[0] == next[0] {
      FollowsWithCarry(last[1..], next[1..]);
    } else {
      ZerosSnoc(|next| - 1);
    }
  }

  lemma Carry(v: nat, c: int, v': nat, d: int)
    requires 0 <= c < 36 && 0 <= d < 36 && v' * 36 + d == v * 36 + c + 1
    ensures if c == 35 then v' == v + 1 && d == 0 else v' == v && d == c + 1
  {
  }

  /** On equal widths, one larger in value is one further in digits. */
  lemma {:induction false} ValueFollows(last: string, next: string)
    requires IsUpperDigits(last) && IsUpperDigits(next) && |last| == |next| && last != ""
    requires IsDigits(last) && IsDigits(next) && Value(next) == Value(last) + 1
    ensures Follows(last, next)
  {
    var n := |last| - 1;
    var front, front', c, d := last[..n], next[..n], last[n], next[n];
    assert last == front + [c] && next == front' + [d];
    UpperDigitOrder(c, d);
    DigitOrder(front, front');
    Carry(Value(front), DigitValue(c), Value(front'), DigitValue(d));
    if c == 'Z' {
      ValueFollows(front, front');
      FollowsWithCarry(front, front');
    } else {
      FollowsInLastDigit(front, c, d);
    }
  }

  lemma FollowsHasLength(last: string, next: string)
    requires Follows(last, next)
    ensures |last| == |next|
  {
  }

  // ------------------------------------------------------------- one segment

  /** What comes after a segment in a key: nothing, or a slash and more. */
  predicate IsTail(rest: string) {
    rest == "" || rest[0] == SLASH
  }

  /** A shorter segment that the range up to next catches by mistake. */
  predicate IsShortOf(seg: string, last: string, next: string) {
    |seg| < |next| && HasPrefix(next, seg) && LexLess(last, seg)
  }

  /** Only a text that starts with all of the 'Z' is not below them. */
  lemma {:induction false} AboveZs(seg: string, rest: string, zs: string)
    requires IsUpperDigits(seg) && IsTail(rest) && AllZ(zs)
    ensures !LexLess(seg + rest, zs) <==> HasPrefix(seg + rest, zs)
  {
    var t := seg + rest;
    if zs == "" || seg == "" {
    } else {
      AboveZs(seg[1..], rest, zs[1..]);
      assert t[1..] == seg[1..] + rest;
      HasPrefixCons(t, zs);
    }
  }

  /** Only a segment of fewer zeros is below zeros. */
  lemma {:induction false} BelowZeros(seg: string, rest: string, k: nat)
    requires IsUpperDigits(seg) && IsTail(rest)
    ensures LexLess(seg + rest, Zeros(k)) <==> |seg| < k && HasPrefix(Zeros(k), seg)
  {
    var t := seg + rest;
    if k == 0 || seg == "" {
    } else {
      BelowZeros(seg[1..], rest, k - 1);
      assert t[1..] == seg[1..] + rest && Zeros(k)[1..] == Zeros(k - 1);
      HasPrefixCons(Zeros(k), seg);
    }
  }

  lemma HasPrefixCons(s: string, prefix: string)
    requires s != "" && prefix != ""
    ensures HasPrefix(s, prefix) <==> s[0] == prefix[0] && HasPrefix(s[1..], prefix[1..])
  {
    assert s == [s[0]] + s[1..] && prefix == [prefix[0]] + prefix[1..];
    PrefixAppend([prefix[0]], prefix[1..], [s[0]], s[1..]);
  }

  lemma LexCons(a: string, b: string)
    requires a != "" && b != ""
    ensures LexLess(a, b) <==> a[0] < b[0] || (a[0] == b[0] && LexLess(a[1..], b[1..]))
  {
  }

  /** The texts from last up to next are those that start with last, and those whose first segment
      is caught short. */
  lemma {:induction false} SegmentRange(last: string, next: string, seg: string, rest: string)
    requires IsUpperDigits(last) && IsUpperDigits(next) && IsUpperDigits(seg) && IsTail(rest) && Follows(last, next)
    ensures !LexLess(seg + rest, last) && LexLess(seg + rest, next) <==>
      HasPrefix(seg + rest, last) || IsShortOf(seg, last, next)
  {
    var t := seg + rest;
    if seg == "" {
    } else {
      assert t[1..] == seg[1..] + rest && t[0] == seg[0];
      LexCons(t, last);
      LexCons(t, next);
      LexCons(last, seg);
      HasPrefixCons(t, last);
      HasPrefixCons(next, seg);
      if last[0] == next[0] {
        SegmentRange(last[1..], next[1..], seg[1..], rest);
      } else {
        DigitGap(last[0], seg[0], next[0]);
        AboveZs(seg[1..], rest, last[1..]);
        BelowZeros(seg[1..], rest, |next| - 1);
      }
    }
  }

  /** Between two neighbouring digits there is none. */
  lemma DigitGap(a: char, c: char, b: char)
    requires IsUpperDigits([a]) && IsUpperDigits([b]) && IsUpperDigits([c]) && DigitValue(b) == DigitValue(a) + 1
    ensures a < b && (c < a || c == a || c == b || c > b)
  {
    assert [a][0] == a && [b][0] == b && [c][0] == c;
  }

  // ------------------------------------------------------------------ whole keys

  /** Everything before the last segment, with its slash. */
  function Stem(front: seq<string>): string {
    if front == [] then "" else Join(front, SLASH) + [SLASH]
  }

  predicate SlashFree(parts: seq<string>) {
    forall i :: 0 <= i < |parts| ==> SLASH !in parts[i]
  }

  lemma JoinStem(front: seq<string>, more: seq<string>)
    requires |more| >= 1
    ensures Join(front + more, SLASH) == Stem(front) + more[0] + TailText(more[1..])
  {
    if front == [] {
      assert front + more == more;
    } else {
      JoinAppend(front, more, SLASH);
    }
  }

  /** A key and its next sibling share the stem. */
  lemma KeyAndNext(p: string, ps: seq<string>)
    requires ps == Split(p, SLASH) && LegalSegment(ps[|ps| - 1])
    ensures
      var n := |ps| - 1;
      && p != "" && IsDigits(ps[n])
      && p == Stem(ps[..n]) + ps[n] && NextSibling(p) == Stem(ps[..n]) + NextSegment(ps[n])
  {
    NextOfLegal(p, ps);
    JoinSplit(p, SLASH);
    JoinLast(ps, ps[|ps| - 1]);
    JoinLast(ps, NextSegment(ps[|ps| - 1]));
  }

  lemma JoinLast(ps: seq<string>, last: string)
    requires |ps| >= 1
    ensures Join(WithLast(ps, last), SLASH) == Stem(ps[..|ps| - 1]) + last
    ensures last == ps[|ps| - 1] ==> WithLast(ps, last) == ps
  {
    assert WithLast(ps, last) == ps[..|ps| - 1] + [last];
    JoinStem(ps[..|ps| - 1], [last]);
  }

  /** A key starts with a stem exactly when its segments start with the stem's and go on. */
  lemma StemIsSegments(x: string, xs: seq<string>, front: seq<string>)
    requires xs == Split(x, SLASH) && SlashFree(front)
    ensures HasPrefix(x, Stem(front)) <==> |xs| > |front| && xs[..|front|] == front
  {
    var n, stem := |front|, Stem(front);
    JoinSplit(x, SLASH);
    if n > 0 && HasPrefix(x, stem) {
      var t := x[|stem|..];
      assert x == Join(front, SLASH) + [SLASH] + t;
      JoinSplit(t, SLASH);
      JoinAppend(front, Split(t, SLASH), SLASH);
      SplitJoin(front + Split(t, SLASH), SLASH);
      assert xs == front + Split(t, SLASH);
    }
    if |xs| > n && xs[..n] == front {
      assert xs == front + xs[n..];
      JoinStem(front, xs[n..]);
      assert x[..|stem|] == stem;
    }
  }

  /** x lies in p's range without being p or below it: its segments follow p's down to p's depth,
      where x has a shorter segment that next(p) begins with and that sorts above p's. */
  predicate IsStranger(p: string, x: string) {
    IsDigits(LastSegment(p)) && AreStrangers(Split(p, SLASH), Split(x, SLASH))
  }

  predicate AreStrangers(ps: seq<string>, xs: seq<string>)
    requires |ps| >= 1 && IsDigits(ps[|ps| - 1])
  {
    var n := |ps| - 1;
    |xs| > n && xs[..n] == ps[..n] && IsShortOf(xs[n], ps[n], NextSegment(ps[n]))
  }

  /** A text cannot both start with last and have a shorter first segment. */
  lemma ShortIsNoPrefix(seg: string, rest: string, last: string)
    requires IsUpperDigits(last) && IsTail(rest) && |seg| < |last|
    ensures !HasPrefix(seg + rest, last)
  {
    var t := seg + rest;
    assert |t| > |seg| ==> t[|seg|] == SLASH;
  }

  lemma RangeBelowStem(stem: string, last: string, next: string, seg: string, rest: string)
    requires IsUpperDigits(last) && IsUpperDigits(next) && IsUpperDigits(seg) && IsTail(rest) && Follows(last, next)
    ensures
      var x, p, q := stem + (seg + rest), stem + last, stem + next;
      && (!LexLess(x, p) && LexLess(x, q) <==> HasPrefix(x, p) || IsShortOf(seg, last, next))
      && !(HasPrefix(x, p) && IsShortOf(seg, last, next))
  {
    var t := seg + rest;
    assert LexLess(stem + t, stem + last) <==> LexLess(t, last) by {
      LexAppend(stem, t, stem, last);
      LexIrreflexive(stem);
    }
    assert LexLess(stem + t, stem + next) <==> LexLess(t, next) by {
      LexAppend(stem, t, stem, next);
      LexIrreflexive(stem);
    }
    PrefixAppend(stem, last, stem, t);
    SegmentRange(last, next, seg, rest);
    if IsShortOf(seg, last, next) {
      FollowsHasLength(last, next);
      ShortIsNoPrefix(seg, rest, last);
    }
  }

  lemma SplitIsSlashFree(s: string)
    ensures SlashFree(Split(s, SLASH))
  {
    JoinSplit(s, SLASH);
  }

  /** The segment of x at p's depth, if it has one, is made of upper-case base-36 digits. */
  predicate HasDigitsAtDepth(p: string, x: string) {
    var n, xs := |Split(p, SLASH)| - 1, Split(x, SLASH);
    |xs| > n ==> IsUpperDigits(xs[n])
  }

  lemma PrefixIsDescent(x: string, p: string)
    requires p != ""
    ensures IsDescendantOrSelf(x, p) <==> HasPrefix(x, p)
  {
    assert HasPrefix(x, p) && |x| == |p| ==> x == p;
  }

  lemma NextFollows(last: string)
    requires LegalSegment(last) && !AllZ(last)
    ensures IsDigits(last) && IsUpperDigits(NextSegment(last)) && Follows(last, NextSegment(last))
  {
    NextSegmentIsSuccessor(last, |last|);
    ValueFollows(last, NextSegment(last));
  }

  /** Main theorem, whatever the widths: the range holds p, its descendants, and exactly the strangers. */
  lemma RangeIsSubtreeAndStrangers(p: string, x: string)
    requires LegalSegment(LastSegment(p)) && !AllZ(LastSegment(p)) && HasDigitsAtDepth(p, x)
    ensures InRange(x, p) <==> IsDescendantOrSelf(x, p) || IsStranger(p, x)
    ensures !(IsDescendantOrSelf(x, p) && IsStranger(p, x))
  {
    KeyAndNext(p, Split(p, SLASH));
    SplitIsSlashFree(p);
    PrefixIsDescent(x, p);
    RangeOfSegments(p, NextSibling(p), x, Split(p, SLASH), Split(x, SLASH));
  }

  lemma RangeOfSegments(p: string, q: string, x: string, ps: seq<string>, xs: seq<string>)
    requires |ps| >= 1 && SlashFree(ps) && xs == Split(x, SLASH)
    requires
      var n := |ps| - 1;
      && LegalSegment(ps[n]) && !AllZ(ps[n]) && IsDigits(ps[n]) && (|xs| > n ==> IsUpperDigits(xs[n]))
      && p == Stem(ps[..n]) + ps[n] && q == Stem(ps[..n]) + NextSegment(ps[n])
    ensures !LexLess(x, p) && LexLess(x, q) <==> HasPrefix(x, p) || AreStrangers(ps, xs)
    ensures !(HasPrefix(x, p) && AreStrangers(ps, xs))
  {
    var n := |ps| - 1;
    var stem, last, next := Stem(ps[..n]), ps[n], NextSegment(ps[n]);
    NextFollows(last);
    StemIsSegments(x, xs, ps[..n]);
    if |xs| > n && xs[..n] == ps[..n] {
      assert x == stem + (xs[n] + TailText(xs[n + 1..])) by { KeyBelowStem(x, xs, n); }
      RangeBelowStem(stem, last, next, xs[n], TailText(xs[n + 1..]));
    } else {
      OutsideStem(x, stem, last, next);
    }
  }

  lemma OutsideStem(x: string, stem: string, last: string, next: string)
    requires !HasPrefix(x, stem)
    ensures !(!LexLess(x, stem + last) && LexLess(x, stem + next)) && !HasPrefix(x, stem + last)
  {
    if !LexLess(x, stem + last) && LexLess(x, stem + next) {
      BetweenHasStem(x, stem, last, next);
    }
    assert (stem + last)[..|stem|] == stem;
    assert |stem + last| <= |x| ==> x[..|stem + last|][..|stem|] == x[..|stem|];
  }

  lemma KeyBelowStem(x: string, xs: seq<string>, n: nat)
    requires xs == Split(x, SLASH) && |xs| > n
    ensures x == Stem(xs[..n]) + (xs[n] + TailText(xs[n + 1..]))
  {
    JoinSplit(x, SLASH);
    assert xs == xs[..n] + xs[n..] && xs[n..][1..] == xs[n + 1..];
    JoinStem(xs[..n], xs[n..]);
  }

  /** On an all-'Z' segment next(p) falls below p, and the range is empty. */
  lemma CarryFallsBelow(p: string)
    requires LegalSegment(LastSegment(p)) && AllZ(LastSegment(p))
    ensures LexLess(NextSibling(p), p)
  {
    var ps := Split(p, SLASH);
    var last := ps[|ps| - 1];
    KeyAndNext(p, ps);
    CarrySegment(last, |last|);
    LexAppend(Stem(ps[..|ps| - 1]), NextSegment(last), Stem(ps[..|ps| - 1]), last);
  }

  /** When the range is right about one key, for any key p that has a next sibling and any key x with
      an upper-case base-36 segment, or none, at p's depth. */
  lemma RangeIsRightIff(p: string, x: string)
    requires LegalSegment(LastSegment(p)) && HasDigitsAtDepth(p, x)
    ensures (InRange(x, p) <==> IsDescendantOrSelf(x, p)) <==>
      if AllZ(LastSegment(p)) then !IsDescendantOrSelf(x, p) else !IsStranger(p, x)
  {
    if AllZ(LastSegment(p)) {
      CarryFallsBelow(p);
      if InRange(x, p) { LexTransitive(x, NextSibling(p), p); }
    } else {
      RangeIsSubtreeAndStrangers(p, x);
    }
  }

  /** next(p) sorts above p exactly when p's last segment is not all 'Z'. */
  lemma NextSiblingIsAboveIff(p: string)
    requires LegalSegment(LastSegment(p))
    ensures LexLess(p, NextSibling(p)) <==> !AllZ(LastSegment(p))
    ensures AllZ(LastSegment(p)) ==> LexLess(NextSibling(p), p)
  {
    if AllZ(LastSegment(p)) {
      CarryFallsBelow(p);
      LexAsymmetric(NextSibling(p), p);
    } else {
      RangeIsSubtreeAndStrangers(p, p);
    }
  }

  // ------------------------------------------------------- widths fixed by depth

  /** With widths fixed by depth there are no strangers: the range holds exactly p and its
      descendants. */
  lemma RangeIsSubtree(w: nat -> nat, p: string, x: string)
    requires ValidWidths(w) && WellFormed(w, p) && WellFormed(w, x)
    requires !AllZ(LastSegment(p))
    ensures InRange(x, p) <==> IsDescendantOrSelf(x, p)
  {
    NoStrangers(w, p, x, Split(p, SLASH), Split(x, SLASH));
    RangeIsSubtreeAndStrangers(p, x);
  }

  lemma NoStrangers(w: nat -> nat, p: string, x: string, ps: seq<string>, xs: seq<string>)
    requires ValidWidths(w) && ps == Split(p, SLASH) && xs == Split(x, SLASH)
    requires WellFormedFrom(w, 0, ps) && WellFormedFrom(w, 0, xs) && !AllZ(LastSegment(p))
    ensures LegalSegment(LastSegment(p)) && HasDigitsAtDepth(p, x) && !IsStranger(p, x)
  {
    var n: nat := |ps| - 1;
    WellFormedAt(w, 0, ps, n);
    if |xs| > n {
      WellFormedAt(w, 0, xs, n);
      SameWidthIsNotShort(xs[n], ps[n], w(n));
    }
  }

  lemma SameWidthIsNotShort(seg: string, last: string, k: nat)
    requires IsSegment(seg, k) && IsSegment(last, k) && k >= 1 && !AllZ(last)
    ensures IsDigits(last) && !IsShortOf(seg, last, NextSegment(last))
  {
    NextSegmentIsSuccessor(last, k);
  }

  /** The range query is right for every key of the hierarchy exactly under that condition:
      on an all-'Z' segment it even loses the organization itself. */
  lemma RangeIsSubtreeIff(w: nat -> nat, p: string)
    requires ValidWidths(w) && WellFormed(w, p)
    ensures (forall x | WellFormed(w, x) :: InRange(x, p) <==> IsDescendantOrSelf(x, p))
            <==> !AllZ(LastSegment(p))
  {
    if AllZ(LastSegment(p)) {
      WellFormedAt(w, 0, Split(p, SLASH), |Split(p, SLASH)| - 1);
      CarryFallsBelow(p);
      LexAsymmetric(NextSibling(p), p);
      assert !InRange(p, p) && IsDescendantOrSelf(p, p);
    } else {
      forall x | WellFormed(w, x) ensures InRange(x, p) <==> IsDescendantOrSelf(x, p) {
        RangeIsSubtree(w, p, x);
      }
    }
  }

  // ------------------------------------------------------------- mixed widths

  predicate EndsInZ(s: string) {
    s != "" && s[|s| - 1] == 'Z'
  }

  /** A segment is caught short only if last ends in 'Z', and then next without its last zero is. */
  lemma {:induction false} ShortNeedsZ(last: string, next: string, seg: string)
    requires IsUpperDigits(last) && IsUpperDigits(next) && Follows(last, next)
    ensures IsShortOf(seg, last, next) ==> EndsInZ(last)
    ensures EndsInZ(last) ==> IsShortOf(next[..|next| - 1], last, next)
  {
    var short := next[..|next| - 1];
    if last[0] == next[0] {
      assert |last| > 1;
      ShortNeedsZ(last[1..], next[1..], if seg == "" then "" else seg[1..]);
      assert next[1..][..|next| - 2] == short[1..];
      if seg != "" {
        HasPrefixCons(next, seg);
      }
    } else {
      DigitGap(last[0], last[0], next[0]);
    }
  }

  /** So mixed widths can break the range of p exactly when p's last segment ends in 'Z'. */
  lemma HasStrangersIff(p: string)
    requires LegalSegment(LastSegment(p)) && !AllZ(LastSegment(p))
    ensures (exists x :: HasDigitsAtDepth(p, x) && InRange(x, p) && !IsDescendantOrSelf(x, p)) <==>
      EndsInZ(LastSegment(p))
  {
    var ps, last := Split(p, SLASH), LastSegment(p);
    NextFollows(last);
    var next := NextSegment(last);
    if EndsInZ(last) {
      ShortNeedsZ(last, next, "");
      var x := KeyWithLast(p, ps, next[..|next| - 1]);
      RangeIsSubtreeAndStrangers(p, x);
    }
    forall x | HasDigitsAtDepth(p, x) && InRange(x, p) && !IsDescendantOrSelf(x, p) ensures EndsInZ(last) {
      RangeIsSubtreeAndStrangers(p, x);
      ShortNeedsZ(last, next, Split(x, SLASH)[|ps| - 1]);
    }
  }

  lemma KeyWithLast(p: string, ps: seq<string>, seg: string) returns (x: string)
    requires ps == Split(p, SLASH) && IsUpperDigits(seg)
    ensures Split(x, SLASH) == ps[..|ps| - 1] + [seg]
  {
    SplitIsSlashFree(p);
    x := Join(ps[..|ps| - 1] + [seg], SLASH);
    SplitJoin(ps[..|ps| - 1] + [seg], SLASH);
  }

  /** For example. */
  lemma MixedWidthsBreakTheRange()
    ensures InRange("001", "000Z") && !IsDescendantOrSelf("001", "000Z")
  {
    NextSiblingOfExample("000Z");
    ExampleOrder("001", "000Z", "0010");
  }

  lemma ExampleOrder(x: string, p: string, q: string)
    requires x == "001" && p == "000Z" && q == "0010"
    ensures !LexLess(x, p) && LexLess(x, q) && !HasPrefix(x, p)
  {
    assert x == "00" + "1" && p == "00" + "0Z" && q == "001" + "0" && x == "001" + "";
    LexIrreflexive("00");
    LexAppend("00", "1", "00", "0Z");
    LexAppend("001", "", "001", "0");
  }

  lemma NextSiblingOfExample(p: string)
    requires p == "000Z"
    ensures NextSibling(p) == "0010"
  {
    assert Split(p, SLASH) == [p] by { SplitHead(p, "", SLASH); }
    assert IsDigits(p) && ParseInt(p) == Some(35) by {
      SegmentParses(p, 4);
      ExampleValue(p);
    }
    assert FormatInt(36) == "10" by {
      assert FormatNat(36) == FormatNat(1) + [UpperDigit(0)];
    }
    assert PadLeft("10", 4) == "0010" by {
      assert Zeros(2) == "0" + Zeros(1) == "00";
    }
    assert WithLast([p], "0010") == ["0010"];
  }

  lemma ExampleValue(p: string)
    requires p == "000Z"
    ensures IsDigits(p) && Value(p) == 35
  {
    PaddingKeepsValue(3, "Z");
    assert Zeros(3) == "0" + ("0" + ("0" + Zeros(0))) && Zeros(3) + "Z" == p;
    assert "Z"[..0] == "";
  }
}
