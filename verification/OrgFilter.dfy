/** Organization filters built on pathKeys: the upward query (ancestors including self)
    and the visibility rule for templates. */
module OrgFilter {
  import opened Optional
  import opened Text
  import opened PathKey
  import opened SubtreeRange

  datatype OrgType = Vendor | Customer | Site | Other | Unknown

  datatype Error = ContextRequired | NoTemplateAncestor | InvalidOrgType

  /** The pathKey part of a template filter: an equality or an "$in" list. */
  datatype TemplateFilter = PathEquals(key: string) | PathIn(keys: seq<string>)

  datatype Result<T> = Ok(value: T) | Err(error: Error)

  predicate EndsWithSlash(s: string) {
    s != "" && s[|s| - 1] == SLASH
  }

  function TrimSlash(s: string): string {
    if EndsWithSlash(s) then s[..|s| - 1] else s
  }

  function OrgTypeOf(pathKey: string): OrgType {
    var trimmed := TrimSlash(pathKey);
    if trimmed == "" then Unknown
    else
      var depth := |Split(trimmed, SLASH)|;
      if depth == 1 then Vendor else if depth == 2 then Customer else if depth == 3 then Site else Other
  }

  predicate CanCreateTemplate(orgType: OrgType) {
    orgType == Vendor || orgType == Customer
  }

  /** ValidateTemplateCreation reports no error. */
  predicate MayCreateTemplates(pathKey: string) {
    CanCreateTemplate(OrgTypeOf(pathKey))
  }

  /** Every prefix of the segment list, joined: the ancestors, root first, then the key itself. */
  function AncestorKeys(pathKey: string): seq<string> {
    var trimmed := TrimSlash(pathKey);
    if trimmed == "" then [] else Prefixes(Split(trimmed, SLASH))
  }

  function Prefixes(parts: seq<string>): (r: seq<string>)
    ensures |r| == |parts|
    ensures forall i :: 0 <= i < |parts| ==> r[i] == Join(parts[..i + 1], SLASH)
  {
    seq(|parts|, i requires 0 <= i < |parts| => Join(parts[..i + 1], SLASH))
  }

  method GetAncestorPathKeysIncludingSelf(pathKey: string) returns (ancestors: seq<string>)
    ensures ancestors == AncestorKeys(pathKey)
  {
    if pathKey == "" {
      return [];
    }
    var trimmed := TrimSlash(pathKey);
    if trimmed == "" {
      return [];
    }
    ancestors := JoinPrefixes(Split(trimmed, SLASH));
  }

  /** The loop that grows the key by one part at a time. */
  method JoinPrefixes(parts: seq<string>) returns (ancestors: seq<string>)
    ensures ancestors == Prefixes(parts)
  {
    ancestors := [];
    var current := "";
    for i := 0 to |parts|
      invariant current == Join(parts[..i], SLASH)
      invariant |ancestors| == i
      invariant forall j :: 0 <= j < i ==> ancestors[j] == Join(parts[..j + 1], SLASH)
    {
      JoinSnoc(parts[..i], parts[i]);
      assert parts[..i] + [parts[i]] == parts[..i + 1];
      if i > 0 {
        current := current + [SLASH];
      }
      current := current + parts[i];
      ancestors := ancestors + [current];
    }
  }

  lemma JoinSnoc(parts: seq<string>, last: string)
    ensures Join(parts + [last], SLASH) ==
            if parts == [] then last else Join(parts, SLASH) + [SLASH] + last
  {
    if parts == [] {
      assert parts + [last] == [last];
    } else {
      JoinAppend(parts, [last], SLASH);
    }
  }

  /** The keys of a list whose organizations may create templates, in order. */
  function TemplateCreators(keys: seq<string>): (r: seq<string>)
    ensures forall k :: k in r <==> k in keys && MayCreateTemplates(k)
  {
    if keys == [] then []
    else
      var front := TemplateCreators(keys[..|keys| - 1]);
      var last := keys[|keys| - 1];
      assert keys == keys[..|keys| - 1] + [last];
      if MayCreateTemplates(last) then front + [last] else front
  }

  /** BuildTemplateAncestorFilter as a function of the context's pathKey ("" when missing). */
  function TemplateFilterFor(pathKey: string): Result<TemplateFilter> {
    if pathKey == "" then Err(ContextRequired)
    else match OrgTypeOf(pathKey)
      case Vendor => Ok(PathEquals(pathKey))
      case Customer => Ok(PathIn(AncestorKeys(pathKey)))
      case Unknown => Err(InvalidOrgType)
      case _ =>
        var keys := TemplateCreators(AncestorKeys(pathKey));
        if keys == [] then Err(NoTemplateAncestor) else Ok(PathIn(keys))
  }

  /** The loop of the site-and-lower case. */
  method KeepTemplateCreators(ancestors: seq<string>) returns (keys: seq<string>)
    ensures keys == TemplateCreators(ancestors)
  {
    keys := [];
    for i := 0 to |ancestors|
      invariant keys == TemplateCreators(ancestors[..i])
    {
      assert ancestors[..i + 1][..i] == ancestors[..i];
      var pkType := OrgTypeOf(ancestors[i]);
      if pkType == Vendor || pkType == Customer {
        keys := keys + [ancestors[i]];
      }
    }
    assert ancestors[..|ancestors|] == ancestors;
  }

  method BuildTemplateAncestorFilter(contextPathKey: Option<string>) returns (r: Result<TemplateFilter>)
    ensures r == TemplateFilterFor(if contextPathKey.None? then "" else contextPathKey.value)
  {
    if contextPathKey.None? || contextPathKey.value == "" {
      return Err(ContextRequired);
    }
    var pathKey := contextPathKey.value;
    match OrgTypeOf(pathKey) {
      case Vendor =>
        return Ok(PathEquals(pathKey));
      case Customer =>
        var ancestors := GetAncestorPathKeysIncludingSelf(pathKey);
        return Ok(PathIn(ancestors));
      case Unknown =>
        return Err(InvalidOrgType);
      case _ =>
        var ancestors := GetAncestorPathKeysIncludingSelf(pathKey);
        var keys := KeepTemplateCreators(ancestors);
        if |keys| == 0 {
          return Err(NoTemplateAncestor);
        }
        return Ok(PathIn(keys));
    }
  }

  predicate Admits(f: TemplateFilter, key: string) {
    match f
    case PathEquals(k) => key == k
    case PathIn(keys) => key in keys
  }

  // ------------------------------------------------------------ main results

  lemma {:induction false} WellFormedHasNoTrailingSlash(w: nat -> nat, depth: nat, segments: seq<string>)
    requires ValidWidths(w) && |segments| >= 1 && WellFormedFrom(w, depth, segments)
    ensures var text := Join(segments, SLASH); text != "" && text[0] != SLASH && !EndsWithSlash(text)
    decreases |segments|
  {
    if |segments| == 1 {
    } else {
      WellFormedHasNoTrailingSlash(w, depth + 1, segments[1..]);
    }
  }

  lemma WellFormedIsTrimmed(w: nat -> nat, x: string)
    requires ValidWidths(w) && WellFormed(w, x)
    ensures x != "" && x[0] != SLASH && TrimSlash(x) == x
  {
    JoinSplit(x, SLASH);
    WellFormedHasNoTrailingSlash(w, 0, Split(x, SLASH));
  }

  /** A joined list is among the prefixes exactly when the list is a prefix. */
  lemma PrefixesContain(xs: seq<string>, ps: seq<string>)
    requires |ps| >= 1 && SlashFree(xs) && SlashFree(ps)
    ensures Join(ps, SLASH) in Prefixes(xs) <==> ps <= xs
  {
    var p := Join(ps, SLASH);
    if p in Prefixes(xs) {
      var i :| 0 <= i < |xs| && p == Prefixes(xs)[i];
      JoinIsInjective(xs[..i + 1], ps);
    }
    if ps <= xs {
      assert xs[..|ps|] == ps;
      assert Prefixes(xs)[|ps| - 1] == p;
    }
  }

  lemma JoinIsInjective(a: seq<string>, b: seq<string>)
    requires |a| >= 1 && |b| >= 1 && SlashFree(a) && SlashFree(b)
    requires Join(a, SLASH) == Join(b, SLASH)
    ensures a == b
  {
    SplitJoin(a, SLASH);
    SplitJoin(b, SLASH);
  }

  /** p is an ancestor-or-self key of x exactly when p's segments begin x's. */
  lemma AncestorKeysAreSegmentPrefixes(x: string, p: string)
    requires TrimSlash(x) == x && x != ""
    ensures p in AncestorKeys(x) <==> Split(p, SLASH) <= Split(x, SLASH)
  {
    JoinSplit(x, SLASH);
    JoinSplit(p, SLASH);
    PrefixesContain(Split(x, SLASH), Split(p, SLASH));
  }

  /** Down and up queries agree: x lies in p's range exactly when p is among x's ancestors or x. */
  lemma DownAndUpAgree(w: nat -> nat, p: string, x: string)
    requires ValidWidths(w) && WellFormed(w, p) && WellFormed(w, x)
    requires !AllZ(LastSegment(p))
    ensures InRange(x, p) <==> p in AncestorKeys(x)
  {
    RangeIsSubtree(w, p, x);
    PrefixTestIsHierarchy(w, p, x);
    WellFormedIsTrimmed(w, x);
    AncestorKeysAreSegmentPrefixes(x, p);
  }

  /** How deep a key is in the hierarchy: its segments, a trailing slash aside; the empty key has none. */
  function Depth(pathKey: string): nat {
    if TrimSlash(pathKey) == "" then 0 else |Split(TrimSlash(pathKey), SLASH)|
  }

  /** The type of an organization is its depth: vendor, customer, site, anything below. */
  lemma TypeIsDepth(pathKey: string)
    ensures OrgTypeOf(pathKey) == Unknown <==> Depth(pathKey) == 0
    ensures OrgTypeOf(pathKey) == Vendor <==> Depth(pathKey) == 1
    ensures OrgTypeOf(pathKey) == Customer <==> Depth(pathKey) == 2
    ensures OrgTypeOf(pathKey) == Site <==> Depth(pathKey) == 3
    ensures OrgTypeOf(pathKey) == Other <==> Depth(pathKey) >= 4
  {
  }

  /** Only the two uppermost levels may create templates. */
  lemma CreatorsAreUppermost(pathKey: string)
    ensures MayCreateTemplates(pathKey) <==> 1 <= Depth(pathKey) <= 2
  {
    TypeIsDepth(pathKey);
  }

  /** The filter shows exactly the ancestors-or-self on the two uppermost levels, which may create
      templates. */
  ghost predicate ShowsExactlyCreators(f: TemplateFilter, pathKey: string) {
    forall k :: Admits(f, k) <==> k in AncestorKeys(pathKey) && 1 <= Depth(k) <= 2
  }

  /** Which error is given when there is no filter: without a key, for a key that is only a slash, and
      for a key none of whose ancestors is on those levels. */
  lemma TemplateErrors(pathKey: string)
    ensures TemplateFilterFor(pathKey) == Err(ContextRequired) <==> pathKey == ""
    ensures TemplateFilterFor(pathKey) == Err(InvalidOrgType) <==> pathKey != "" && Depth(pathKey) == 0
    ensures TemplateFilterFor(pathKey) == Err(NoTemplateAncestor) <==>
      Depth(pathKey) >= 3 && forall k :: k in AncestorKeys(pathKey) ==> !(1 <= Depth(k) <= 2)
  {
    TypeIsDepth(pathKey);
    var keys := TemplateCreators(AncestorKeys(pathKey));
    forall k ensures k in keys <==> k in AncestorKeys(pathKey) && 1 <= Depth(k) <= 2 {
      CreatorsAreUppermost(k);
    }
    if keys != [] {
      assert keys[0] in keys;
    }
  }

  /** When that holds, for every pathKey: a vendor key without a trailing slash,
      a customer key whose vendor part is not empty, any deeper key. */
  lemma TemplateFilterIsExactIff(pathKey: string)
    requires TemplateFilterFor(pathKey).Ok?
    ensures ShowsExactlyCreators(TemplateFilterFor(pathKey).value, pathKey) <==>
      && (OrgTypeOf(pathKey) == Vendor ==> !EndsWithSlash(pathKey))
      && (OrgTypeOf(pathKey) == Customer ==> pathKey[0] != SLASH)
  {
    forall k ensures MayCreateTemplates(k) <==> 1 <= Depth(k) <= 2 {
      CreatorsAreUppermost(k);
    }
    match OrgTypeOf(pathKey)
    case Vendor => VendorFilter(pathKey);
    case Customer => CustomerFilter(pathKey);
    case Site =>
    case Other =>
  }

  lemma OnePart(s: string)
    requires |Split(s, SLASH)| == 1
    ensures SLASH !in s && TrimSlash(s) == s && Prefixes(Split(s, SLASH)) == [s]
  {
    JoinSplit(s, SLASH);
    assert Split(s, SLASH)[..1] == Split(s, SLASH) == [s];
  }

  lemma VendorFilter(pathKey: string)
    requires OrgTypeOf(pathKey) == Vendor
    ensures ShowsExactlyCreators(PathEquals(pathKey), pathKey) <==> !EndsWithSlash(pathKey)
  {
    var trimmed := TrimSlash(pathKey);
    OnePart(trimmed);
    assert AncestorKeys(pathKey) == [trimmed] && MayCreateTemplates(trimmed);
    CreatorsAreUppermost(trimmed);
    if EndsWithSlash(pathKey) {
      assert Admits(PathEquals(pathKey), pathKey) && pathKey !in [trimmed];
    }
  }

  lemma CustomerFilter(pathKey: string)
    requires OrgTypeOf(pathKey) == Customer
    ensures ShowsExactlyCreators(PathIn(AncestorKeys(pathKey)), pathKey) <==> pathKey[0] != SLASH
  {
    var trimmed := TrimSlash(pathKey);
    var parts := Split(trimmed, SLASH);
    var root, leaf := parts[0], parts[1];
    assert SlashFree(parts) && Join(parts, SLASH) == trimmed by { JoinSplit(trimmed, SLASH); }
    TwoParts(parts);
    assert AncestorKeys(pathKey) == [root, trimmed];
    assert pathKey[0] == trimmed[0];
    CreatorsAreUppermost(root);
    CreatorsAreUppermost(trimmed);
    if root == "" {
      assert "" in AncestorKeys(pathKey) && !MayCreateTemplates("");
    } else {
      TwoPartsMayCreate(root, leaf, trimmed);
    }
  }

  lemma TwoParts(parts: seq<string>)
    requires |parts| == 2
    ensures Join(parts, SLASH) == parts[0] + [SLASH] + parts[1]
    ensures Prefixes(parts) == [parts[0], Join(parts, SLASH)]
  {
    assert Join(parts[1..], SLASH) == parts[1];
    assert parts[..1] == [parts[0]] && parts[..2] == parts;
  }

  lemma TwoPartsMayCreate(root: string, leaf: string, key: string)
    requires root != "" && SLASH !in root && SLASH !in leaf && key == root + [SLASH] + leaf
    ensures MayCreateTemplates(root) && MayCreateTemplates(key)
    ensures root[0] != SLASH
  {
    assert root[0] in root && root[|root| - 1] in root;
    SplitHead(root, leaf, SLASH);
    SplitHead(leaf, "", SLASH);
    if leaf == "" {
      assert TrimSlash(key) == root;
    } else {
      assert leaf[|leaf| - 1] in leaf;
      assert TrimSlash(key) == key;
    }
  }

  /** On keys of the hierarchy the filter always exists and shows exactly the creators. */
  lemma HierarchyTemplates(w: nat -> nat, x: string)
    requires ValidWidths(w) && WellFormed(w, x)
    ensures TemplateFilterFor(x).Ok? && ShowsExactlyCreators(TemplateFilterFor(x).value, x)
  {
    WellFormedIsTrimmed(w, x);
    var xs := Split(x, SLASH);
    JoinSplit(x, SLASH);
    var root := xs[0];
    SplitHead(root, "", SLASH);
    assert xs[..1] == [root];
    assert root == Prefixes(xs)[0] && root in AncestorKeys(x);
    assert |root| == w(0) >= 1;
    assert !EndsWithSlash(root) && MayCreateTemplates(root);
    TemplateFilterIsExactIff(x);
  }

  /** One trailing slash is ignored, and only one. */
  lemma TrimsOneSlash(s: string)
    ensures TrimSlash(s + [SLASH]) == s
    ensures !EndsWithSlash(s) ==> TrimSlash(s) == s
  {
    assert (s + [SLASH])[..|s|] == s;
  }

  /** The ancestors come root first, each one segment longer than the one before, the key itself last. */
  lemma AncestorsAreRootFirst(x: string, i: nat)
    requires i < Depth(x)
    ensures |AncestorKeys(x)| == Depth(x)
    ensures AncestorKeys(x)[i] == Join(Split(TrimSlash(x), SLASH)[..i + 1], SLASH)
    ensures AncestorKeys(x)[Depth(x) - 1] == TrimSlash(x)
  {
    var parts := Split(TrimSlash(x), SLASH);
    JoinSplit(TrimSlash(x), SLASH);
    assert parts[..|parts|] == parts;
  }

  lemma {:induction false} WellFormedPrefix(w: nat -> nat, depth: nat, segments: seq<string>, n: nat)
    requires WellFormedFrom(w, depth, segments) && n <= |segments|
    ensures WellFormedFrom(w, depth, segments[..n])
    decreases |segments|
  {
    if n == 0 {
    } else {
      WellFormedPrefix(w, depth + 1, segments[1..], n - 1);
      assert segments[..n][1..] == segments[1..][..n - 1];
    }
  }

  lemma DepthOfPrefix(w: nat -> nat, xs: seq<string>, i: nat)
    requires ValidWidths(w) && WellFormedFrom(w, 0, xs) && i < |xs|
    ensures Depth(Join(xs[..i + 1], SLASH)) == i + 1
  {
    WellFormedPrefix(w, 0, xs, i + 1);
    WellFormedParses(w, 0, xs[..i + 1]);
    SplitJoin(xs[..i + 1], SLASH);
    WellFormedHasNoTrailingSlash(w, 0, xs[..i + 1]);
  }

  lemma {:induction false} CreatorsAreFirstTwo(keys: seq<string>)
    requires forall i :: 0 <= i < |keys| ==> (MayCreateTemplates(keys[i]) <==> i < 2)
    ensures TemplateCreators(keys) == if |keys| <= 2 then keys else keys[..2]
  {
    if keys == [] {
    } else {
      var front := keys[..|keys| - 1];
      CreatorsAreFirstTwo(front);
      assert keys == front + [keys[|keys| - 1]];
    }
  }

  lemma PrefixCreators(w: nat -> nat, xs: seq<string>)
    requires ValidWidths(w) && WellFormedFrom(w, 0, xs)
    ensures forall i :: 0 <= i < |xs| ==> (MayCreateTemplates(Prefixes(xs)[i]) <==> i < 2)
  {
    forall i | 0 <= i < |xs| ensures MayCreateTemplates(Prefixes(xs)[i]) <==> i < 2 {
      DepthOfPrefix(w, xs, i);
      CreatorsAreUppermost(Prefixes(xs)[i]);
    }
  }

  /** On keys of the hierarchy the filter is the vendor itself, or the list of vendor and customer,
      in this order. */
  lemma HierarchyFilterIsUppermost(w: nat -> nat, x: string)
    requires ValidWidths(w) && WellFormed(w, x)
    ensures TemplateFilterFor(x) ==
      Ok(if Depth(x) == 1 then PathEquals(x) else PathIn(AncestorKeys(x)[..2]))
    ensures Depth(x) >= 1 && |AncestorKeys(x)| == Depth(x)
  {
    WellFormedIsTrimmed(w, x);
    TypeIsDepth(x);
    if Depth(x) >= 2 {
      UppermostOfPrefixes(w, Split(x, SLASH));
    }
  }

  lemma UppermostOfPrefixes(w: nat -> nat, xs: seq<string>)
    requires ValidWidths(w) && WellFormedFrom(w, 0, xs) && |xs| >= 2
    ensures TemplateCreators(Prefixes(xs)) == Prefixes(xs)[..2]
    ensures |xs| == 2 ==> Prefixes(xs)[..2] == Prefixes(xs)
  {
    PrefixCreators(w, xs);
    CreatorsAreFirstTwo(Prefixes(xs));
  }
}
