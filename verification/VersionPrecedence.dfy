/**
Version precedence, as section 11 of Semantic Versioning 2.0.0 defines it, with
the order of alphanumeric identifiers left to the runtime's string collation.
Versions are parsed already; build metadata does not survive parsing.
*/
module VersionPrecedence {
  import opened Options
  import opened DigitStrings

  datatype Version = Version(core: seq<nat>, prerelease: seq<string>)

  /** `localeCompare`. */
  type Collation = (string, string) -> int

  /** What is assumed of the collation: a total preorder on strings. */
  ghost predicate Collates(coll: Collation) {
    && (forall a, b :: coll(a, b) < 0 <==> coll(b, a) > 0)
    && (forall a, b, c :: coll(a, b) <= 0 && coll(b, c) <= 0 ==> coll(a, c) <= 0)
  }

  /** A parsed version has three core numbers. */
  predicate Parsed(v: Version) {
    |v.core| == 3
  }

  // ---------------------------------------------------------------------
  // The comparison
  // ---------------------------------------------------------------------

  function CompareIdentifiers(coll: Collation, left: string, right: string): int {
    if IsNumeric(left) && IsNumeric(right) then Number(left) - Number(right)
    else if IsNumeric(left) then -1
    else if IsNumeric(right) then 1
    else coll(left, right)
  }

  /** The first difference of two equally long number lists from index `i` on. */
  function CompareCores(left: seq<nat>, right: seq<nat>, i: nat): int
    requires i <= |left| == |right|
    decreases |left| - i
  {
    if i == |left| then 0
    else if left[i] != right[i] then left[i] - right[i]
    else CompareCores(left, right, i + 1)
  }

  /** The first difference of two identifier lists from index `i` on; a list that ends first is lower. */
  function CompareLists(coll: Collation, left: seq<string>, right: seq<string>, i: nat): int
    requires i <= |left| && i <= |right|
    decreases |left| - i
  {
    if i == |left| && i == |right| then 0
    else if i == |left| then -1
    else if i == |right| then 1
    else
      var c := CompareIdentifiers(coll, left[i], right[i]);
      if c != 0 then c else CompareLists(coll, left, right, i + 1)
  }

  function ComparePrereleases(coll: Collation, left: seq<string>, right: seq<string>): int {
    if left == [] && right == [] then 0
    else if left == [] then 1
    else if right == [] then -1
    else CompareLists(coll, left, right, 0)
  }

  function CompareParsed(coll: Collation, left: Version, right: Version): int
    requires Parsed(left) && Parsed(right)
  {
    var c := CompareCores(left.core, right.core, 0);
    if c != 0 then c else ComparePrereleases(coll, left.prerelease, right.prerelease)
  }

  /** A text that does not parse compares equal to everything. */
  function OrZero(coll: Collation, left: Option<Version>, right: Option<Version>): int
    requires left.Some? ==> Parsed(left.value)
    requires right.Some? ==> Parsed(right.value)
  {
    if left == None || right == None then 0 else CompareParsed(coll, left.value, right.value)
  }

  /** `compareVersions` in its own form: index loops that return at the first difference. */
  method CompareVersions(coll: Collation, left: Option<Version>, right: Option<Version>) returns (order: int)
    requires left.Some? ==> Parsed(left.value)
    requires right.Some? ==> Parsed(right.value)
    ensures order == OrZero(coll, left, right)
  {
    if left == None || right == None {
      return 0;
    }
    var a, b := left.value, right.value;
    for i := 0 to 3
      invariant CompareCores(a.core, b.core, 0) == CompareCores(a.core, b.core, i)
    {
      if a.core[i] != b.core[i] {
        return a.core[i] as int - b.core[i];
      }
    }
    var p, q := a.prerelease, b.prerelease;
    if p == [] && q == [] {
      return 0;
    }
    if p == [] {
      return 1;
    }
    if q == [] {
      return -1;
    }
    var longest := if |p| >= |q| then |p| else |q|;
    for i := 0 to longest
      invariant i <= |p| && i <= |q|
      invariant CompareLists(coll, p, q, 0) == CompareLists(coll, p, q, i)
    {
      if i == |p| {
        return -1;
      }
      if i == |q| {
        return 1;
      }
      var c := CompareIdentifiers(coll, p[i], q[i]);
      if c != 0 {
        return c;
      }
    }
    return 0;
  }

  // ---------------------------------------------------------------------
  // Section 11 of Semantic Versioning 2.0.0
  // ---------------------------------------------------------------------

  const DIGITS := {'0', '1', '2', '3', '4', '5', '6', '7', '8', '9'}

  /** An identifier of digits only. */
  predicate OfDigits(identifier: string) {
    |identifier| > 0 && forall c | c in identifier :: c in DIGITS
  }

  /** Identifiers of equal precedence: the same number, or equal to the collation. */
  predicate SameIdentifier(coll: Collation, a: string, b: string) {
    if OfDigits(a) && OfDigits(b) then SameDigits(a, b)
    else !OfDigits(a) && !OfDigits(b) && coll(a, b) == 0
  }

  /** Numbers by their digits, numbers below alphanumerics, alphanumerics by the collation. */
  predicate LowerIdentifier(coll: Collation, a: string, b: string) {
    if OfDigits(a) then OfDigits(b) ==> LowerDigits(a, b)
    else !OfDigits(b) && coll(a, b) < 0
  }

  lemma NumericIsOfDigits(s: string)
    ensures IsNumeric(s) <==> OfDigits(s)
  {
    assert forall c: char :: c in DIGITS <==> '0' <= c <= '9';
    if OfDigits(s) {
      forall i | 0 <= i < |s| ensures '0' <= s[i] <= '9' {
        assert s[i] in s;
      }
    }
  }

  /** The lists agree before `k`, and there the first is lower, or it ends. */
  ghost predicate LowerAt(coll: Collation, a: seq<string>, b: seq<string>, k: nat) {
    && k <= |a| && k < |b|
    && (forall i | 0 <= i < k :: SameIdentifier(coll, a[i], b[i]))
    && (k < |a| ==> LowerIdentifier(coll, a[k], b[k]))
  }

  ghost predicate LowerPrerelease(coll: Collation, a: seq<string>, b: seq<string>) {
    a != [] && (b == [] || exists k: nat :: LowerAt(coll, a, b, k))
  }

  predicate LowerCore(a: seq<nat>, b: seq<nat>)
    requires |a| == |b| == 3
  {
    a[0] < b[0] || (a[0] == b[0] && (a[1] < b[1] || (a[1] == b[1] && a[2] < b[2])))
  }

  ghost predicate Precedes(coll: Collation, a: Version, b: Version)
    requires Parsed(a) && Parsed(b)
  {
    LowerCore(a.core, b.core) || (a.core == b.core && LowerPrerelease(coll, a.prerelease, b.prerelease))
  }

  predicate SamePrerelease(coll: Collation, a: seq<string>, b: seq<string>) {
    |a| == |b| && forall i | 0 <= i < |a| :: SameIdentifier(coll, a[i], b[i])
  }

  lemma CoreOrder(a: seq<nat>, b: seq<nat>)
    requires |a| == |b| == 3
    ensures CompareCores(a, b, 0) < 0 <==> LowerCore(a, b)
    ensures CompareCores(a, b, 0) == 0 <==> a == b
    ensures CompareCores(a, b, 0) > 0 <==> LowerCore(b, a)
  {
    assert CompareCores(a, b, 3) == 0;
    assert CompareCores(a, b, 2) == a[2] as int - b[2];
    assert CompareCores(a, b, 1) == if a[1] != b[1] then a[1] as int - b[1] else a[2] as int - b[2];
  }

  lemma IdentifierOrder(coll: Collation, a: string, b: string)
    requires Collates(coll)
    ensures CompareIdentifiers(coll, a, b) < 0 <==> LowerIdentifier(coll, a, b)
    ensures CompareIdentifiers(coll, a, b) == 0 <==> SameIdentifier(coll, a, b)
    ensures CompareIdentifiers(coll, a, b) > 0 <==> LowerIdentifier(coll, b, a)
    ensures SameIdentifier(coll, a, b) <==> SameIdentifier(coll, b, a)
  {
    assert coll(a, b) < 0 <==> coll(b, a) > 0;
    assert coll(b, a) < 0 <==> coll(a, b) > 0;
    NumericIsOfDigits(a);
    NumericIsOfDigits(b);
    if IsNumeric(a) && IsNumeric(b) {
      NumberOrder(a, b);
      NumberOrder(b, a);
    }
  }

  lemma {:induction false} ListOrder(coll: Collation, a: seq<string>, b: seq<string>, i: nat)
    requires Collates(coll) && i <= |a| && i <= |b|
    requires forall j | 0 <= j < i :: SameIdentifier(coll, a[j], b[j])
    ensures CompareLists(coll, a, b, i) < 0 ==> exists k: nat :: LowerAt(coll, a, b, k)
    ensures CompareLists(coll, a, b, i) == 0 ==> SamePrerelease(coll, a, b)
    ensures CompareLists(coll, a, b, i) > 0 ==> exists k: nat :: LowerAt(coll, b, a, k)
    decreases |a| - i
  {
    forall j | 0 <= j < i ensures SameIdentifier(coll, b[j], a[j]) {
      IdentifierOrder(coll, a[j], b[j]);
    }
    if i < |a| && i < |b| {
      IdentifierOrder(coll, a[i], b[i]);
      if SameIdentifier(coll, a[i], b[i]) {
        ListOrder(coll, a, b, i + 1);
      } else if LowerIdentifier(coll, a[i], b[i]) {
        assert LowerAt(coll, a, b, i);
      } else {
        assert LowerAt(coll, b, a, i);
      }
    } else if i < |b| {
      assert LowerAt(coll, a, b, i);
    } else if i < |a| {
      assert LowerAt(coll, b, a, i);
    }
  }

  /** The three verdicts on two lists exclude each other. */
  lemma ListVerdictsExclude(coll: Collation, a: seq<string>, b: seq<string>, k: nat)
    requires Collates(coll) && LowerAt(coll, a, b, k)
    ensures !SamePrerelease(coll, a, b)
    ensures forall m: nat :: !LowerAt(coll, b, a, m)
  {
    if k < |a| {
      IdentifierOrder(coll, a[k], b[k]);
    }
    forall m: nat | LowerAt(coll, b, a, m)
      ensures false
    {
      if m < k {
        IdentifierOrder(coll, a[m], b[m]);
      }
    }
  }

  /** The comparison's sign is the precedence of section 11: below, equal, above. */
  lemma ComparisonIsPrecedence(coll: Collation, a: Version, b: Version)
    requires Collates(coll) && Parsed(a) && Parsed(b)
    ensures CompareParsed(coll, a, b) < 0 <==> Precedes(coll, a, b)
    ensures CompareParsed(coll, a, b) == 0 <==> a.core == b.core && SamePrerelease(coll, a.prerelease, b.prerelease)
    ensures CompareParsed(coll, a, b) > 0 <==> Precedes(coll, b, a)
  {
    CoreOrder(a.core, b.core);
    CoreOrder(b.core, a.core);
    var p, q := a.prerelease, b.prerelease;
    if p != [] && q != [] {
      ListOrder(coll, p, q, 0);
      if k: nat :| LowerAt(coll, p, q, k) {
        ListVerdictsExclude(coll, p, q, k);
      } else if k: nat :| LowerAt(coll, q, p, k) {
        ListVerdictsExclude(coll, q, p, k);
        SamePrereleaseSymmetric(coll, p, q);
      }
    }
  }

  lemma SamePrereleaseSymmetric(coll: Collation, a: seq<string>, b: seq<string>)
    requires Collates(coll)
    ensures SamePrerelease(coll, a, b) <==> SamePrerelease(coll, b, a)
  {
    forall i | 0 <= i < |a| && i < |b|
      ensures SameIdentifier(coll, a[i], b[i]) <==> SameIdentifier(coll, b[i], a[i])
    {
      IdentifierOrder(coll, a[i], b[i]);
    }
  }

  // ---------------------------------------------------------------------
  // A real order
  // ---------------------------------------------------------------------

  lemma IdentifierTransitive(coll: Collation, a: string, b: string, c: string)
    requires Collates(coll)
    requires CompareIdentifiers(coll, a, b) <= 0 && CompareIdentifiers(coll, b, c) <= 0
    ensures CompareIdentifiers(coll, a, c) <= 0
    ensures CompareIdentifiers(coll, a, c) == 0 ==>
      CompareIdentifiers(coll, a, b) == 0 && CompareIdentifiers(coll, b, c) == 0
  {
    if !IsNumeric(a) && !IsNumeric(b) && !IsNumeric(c) {
      assert coll(a, c) <= 0;
      if coll(a, c) == 0 {
        assert coll(c, a) <= 0;
        assert coll(b, a) <= 0 && coll(c, b) <= 0;
      }
    }
  }

  lemma {:induction false} ListTransitive(coll: Collation, a: seq<string>, b: seq<string>, c: seq<string>, i: nat)
    requires Collates(coll) && i <= |a| && i <= |b| && i <= |c|
    requires CompareLists(coll, a, b, i) <= 0 && CompareLists(coll, b, c, i) <= 0
    ensures CompareLists(coll, a, c, i) <= 0
    decreases |a| - i
  {
    if i < |a| && i < |b| && i < |c| {
      IdentifierTransitive(coll, a[i], b[i], c[i]);
      if CompareIdentifiers(coll, a[i], c[i]) == 0 {
        ListTransitive(coll, a, b, c, i + 1);
      }
    }
  }

  /** On parsed versions the comparison is a total preorder. */
  lemma ComparisonIsTotalPreorder(coll: Collation, a: Version, b: Version, c: Version)
    requires Collates(coll) && Parsed(a) && Parsed(b) && Parsed(c)
    ensures CompareParsed(coll, a, a) == 0
    ensures CompareParsed(coll, a, b) < 0 <==> CompareParsed(coll, b, a) > 0
    ensures CompareParsed(coll, a, b) <= 0 && CompareParsed(coll, b, c) <= 0 ==> CompareParsed(coll, a, c) <= 0
  {
    ComparisonIsPrecedence(coll, a, b);
    ComparisonIsPrecedence(coll, b, a);
    ComparisonIsPrecedence(coll, a, a);
    assert SamePrerelease(coll, a.prerelease, a.prerelease) by {
      forall i | 0 <= i < |a.prerelease| ensures SameIdentifier(coll, a.prerelease[i], a.prerelease[i]) {
        IdentifierOrder(coll, a.prerelease[i], a.prerelease[i]);
      }
    }
    CoreOrder(a.core, b.core);
    CoreOrder(b.core, c.core);
    CoreOrder(a.core, c.core);
    if CompareParsed(coll, a, b) <= 0 && CompareParsed(coll, b, c) <= 0 && a.core == b.core == c.core {
      if a.prerelease != [] && b.prerelease != [] && c.prerelease != [] {
        ListTransitive(coll, a.prerelease, b.prerelease, c.prerelease, 0);
      }
    }
  }

  /** Texts that do not parse compare equal to everything, so on all texts the comparison
      is no order: here 1.0.0 and 2.0.0 are both equal to one and yet apart. */
  lemma UnparsableTextsBreakTransitivity(coll: Collation)
    ensures CompareParsed(coll, Version([2, 0, 0], []), Version([1, 0, 0], [])) > 0
    ensures OrZero(coll, Some(Version([2, 0, 0], [])), None) <= 0
        && OrZero(coll, None, Some(Version([1, 0, 0], []))) <= 0
  {
  }

  /** Versions that parse, and texts that do not. */
  ghost predicate ParsedTexts(texts: iset<Option<Version>>) {
    forall v | v in texts && v.Some? :: Parsed(v.value)
  }

  ghost predicate IsTransitiveOn(coll: Collation, texts: iset<Option<Version>>)
    requires ParsedTexts(texts)
  {
    forall a, b, c | a in texts && b in texts && c in texts ::
      OrZero(coll, a, b) <= 0 && OrZero(coll, b, c) <= 0 ==> OrZero(coll, a, c) <= 0
  }

  ghost predicate AllEqual(coll: Collation, texts: iset<Option<Version>>)
    requires ParsedTexts(texts)
  {
    forall a, b | a in texts && b in texts && a.Some? && b.Some? :: CompareParsed(coll, a.value, b.value) == 0
  }

  /** On a set of texts the comparison is transitive, and with that a total preorder,
      exactly if they all parse or those that do all compare equal. */
  lemma TransitiveIff(coll: Collation, texts: iset<Option<Version>>)
    requires Collates(coll) && ParsedTexts(texts)
    ensures IsTransitiveOn(coll, texts) <==> None !in texts || AllEqual(coll, texts)
  {
    if None !in texts {
      forall a, b, c | a in texts && b in texts && c in texts && OrZero(coll, a, b) <= 0 && OrZero(coll, b, c) <= 0
        ensures OrZero(coll, a, c) <= 0
      {
        ComparisonIsTotalPreorder(coll, a.value, b.value, c.value);
      }
    } else if IsTransitiveOn(coll, texts) {
      forall a, b | a in texts && b in texts && a.Some? && b.Some?
        ensures CompareParsed(coll, a.value, b.value) == 0
      {
        ThroughAnUnparsableText(coll, texts, a, b);
        ThroughAnUnparsableText(coll, texts, b, a);
        ComparisonIsTotalPreorder(coll, a.value, b.value, a.value);
      }
    }
  }

  lemma ThroughAnUnparsableText(coll: Collation, texts: iset<Option<Version>>, a: Option<Version>, b: Option<Version>)
    requires ParsedTexts(texts) && IsTransitiveOn(coll, texts)
    requires None in texts && a in texts && b in texts
    ensures OrZero(coll, a, b) <= 0
  {
    assert OrZero(coll, a, None) <= 0 && OrZero(coll, None, b) <= 0;
  }

  /** Whatever the texts, the comparison is reflexive and changes its sign with its sides. */
  lemma ReflexiveAndAntisymmetric(coll: Collation, a: Option<Version>, b: Option<Version>)
    requires Collates(coll) && (a.Some? ==> Parsed(a.value)) && (b.Some? ==> Parsed(b.value))
    ensures OrZero(coll, a, a) == 0
    ensures OrZero(coll, a, b) < 0 <==> OrZero(coll, b, a) > 0
  {
    if a.Some? {
      ComparisonIsTotalPreorder(coll, a.value, a.value, a.value);
      if b.Some? {
        ComparisonIsTotalPreorder(coll, a.value, b.value, a.value);
      }
    }
  }
}
