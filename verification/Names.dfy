/**
  Host names: the configuration's canonical form and zone test, and the
  provider's normalisation.
*/
module Names {
  import opened Wrappers
  import opened Text

  datatype NameError = Required | Whitespace | TooLong | EmptyLabel | LongLabel | BadCharacter

  const MAX_NAME := 253
  const MAX_LABEL := 63

  /** Section 3.1 of RFC 1034: a name is the list of its labels. */
  function Labels(name: string): (labels: seq<string>) {
    Split(TrimSuffix(name, "."), '.')
  }

  predicate LabelChar(c: char) {
    'a' <= c <= 'z' || '0' <= c <= '9' || c == '-' || c == '_'
  }

  predicate ValidLabel(piece: string) {
    1 <= |piece| <= MAX_LABEL && (piece == "*" || forall c :: c in piece ==> LabelChar(c))
  }

  /** A label by the sizes of section 2.3.4 of RFC 1035 and by ASCII codes: small letters, digits, hyphen, low line. */
  ghost predicate GoodLabel(l: string) {
    && 0 < |l| < 64
    && (l == "*" || forall c :: c in l ==> 97 <= c as int <= 122 || 48 <= c as int <= 57 || c as int in {45, 95})
  }

  /** What the configuration promises of a stored name, free of how it gets there. */
  ghost predicate Canonical(name: string) {
    && |name| <= 253
    && exists labels: seq<string> ::
         labels != [] && (forall l :: l in labels ==> GoodLabel(l)) && name == Join(labels, '.') + "."
  }

  lemma ValidLabelMeans(l: string)
    ensures ValidLabel(l) <==> GoodLabel(l)
  {
    assert forall c :: LabelChar(c) <==> 97 <= c as int <= 122 || 48 <= c as int <= 57 || c as int in {45, 95};
  }

  function Fold(value: string): string {
    TrimSpace(ToLower(value))
  }

  function NormalizeName(name: string): string {
    TrimSuffix(ToLower(TrimSpace(name)), ".")
  }

  predicate IsNameWithinZone(name: string, zone: string) {
    var normalizedName := TrimSuffix(name, ".");
    var normalizedZone := TrimSuffix(zone, ".");
    normalizedName == normalizedZone || HasSuffix(normalizedName, "." + normalizedZone)
  }

  method CheckLabel(piece: string) returns (problem: Option<NameError>)
    ensures problem.None? <==> GoodLabel(piece)
  {
    ValidLabelMeans(piece);
    if piece == "" {
      return Some(EmptyLabel);
    }
    if |piece| > MAX_LABEL {
      return Some(LongLabel);
    }
    if piece == "*" {
      return None;
    }
    for i := 0 to |piece|
      invariant forall k :: 0 <= k < i ==> LabelChar(piece[k])
    {
      if !LabelChar(piece[i]) {
        return Some(BadCharacter);
      }
    }
    return None;
  }

  function Dotted(name: string): string {
    if HasSuffix(name, ".") then name else name + "."
  }

  lemma {:induction false} JoinOfLabels(labels: seq<string>)
    requires labels != [] && forall l :: l in labels ==> GoodLabel(l)
    ensures var j := Join(labels, '.');
      && j != "" && j[|j| - 1] != '.'
      && forall c :: c in j ==> !IsSpace(c) && LowerChar(c) == c
  {
    assert labels[0] in labels;
    assert labels[0][|labels[0]| - 1] in labels[0];
    if |labels| > 1 {
      JoinOfLabels(labels[1..]);
    }
  }

  /** A canonical name is lower case, holds no space, and ends in exactly one dot. */
  lemma CanonicalFacts(name: string)
    ensures Canonical(name) ==>
      && |name| >= 2 && name[|name| - 1] == '.' && name[|name| - 2] != '.'
      && (forall c :: c in name ==> !IsSpace(c) && LowerChar(c) == c)
      && (forall l :: l in Labels(name) ==> GoodLabel(l))
  {
    if Canonical(name) {
      var labels :| labels != [] && (forall l :: l in labels ==> GoodLabel(l)) && name == Join(labels, '.') + ".";
      JoinOfLabels(labels);
      assert TrimSuffix(name, ".") == Join(labels, '.');
      SplitJoin(labels, '.');
    }
  }

  /** A canonical name is the only canonical spelling of itself. */
  lemma CanonicalFixed(value: string)
    ensures Canonical(value) ==> Fold(value) == value == Dotted(value)
    ensures !HasSuffix(value, ".") ==> !Canonical(value)
  {
    CanonicalFacts(value);
    if Canonical(value) {
      ToLowerFixed(value);
      TrimSpaceFixed(value);
    }
  }

  lemma DottedFacts(name: string)
    ensures HasSuffix(Dotted(name), ".")
    ensures |Dotted(name)| > MAX_NAME || name == "" ==> !Canonical(Dotted(name))
    ensures (exists c :: c in name && c in " \t\r\n") ==> !Canonical(Dotted(name))
  {
    CanonicalFacts(Dotted(name));
    if c :| c in name && c in " \t\r\n" {
      assert c in Dotted(name) && IsSpace(c);
    }
  }

  /** For a dotted spelling, being canonical is a matter of its labels and length alone. */
  lemma LabelsOfSpelling(name: string)
    requires HasSuffix(name, ".") && |name| <= MAX_NAME
    ensures Canonical(name) <==> forall l :: l in Split(TrimSuffix(name, "."), '.') ==> GoodLabel(l)
  {
    var labels := Split(TrimSuffix(name, "."), '.');
    JoinSplit(TrimSuffix(name, "."), '.');
    assert name == Join(labels, '.') + ".";
    CanonicalFacts(name);
  }

  /**
    The string is the name in any letter case, with space around it, with its
    final dot or without.
  */
  ghost predicate Spells(value: string, name: string) {
    exists core, at ::
      BlankAround(value, core, at) && (InSmallLetters(core, name) || InSmallLetters(core + ".", name))
  }

  lemma CoreOfCanonical(core: string, name: string)
    requires Canonical(name) && (InSmallLetters(core, name) || InSmallLetters(core + ".", name))
    ensures !BlankEnds(core)
  {
    CanonicalFacts(name);
    if core != "" {
      assert core[0] == (core + ".")[0] && core[|core| - 1] == (core + ".")[|core| - 1];
      assert name[0] in name && name[|core| - 1] in name;
    }
  }

  lemma SpellsCore(value: string, name: string)
    requires Canonical(name)
    ensures Spells(value, name) <==>
      var core := TrimSpace(value); InSmallLetters(core, name) || InSmallLetters(core + ".", name)
  {
    hide TrimSpace, InSmallLetters;
    var at := TrimSpacePlace(value);
    if Spells(value, name) {
      var core, i :| BlankAround(value, core, i) && (InSmallLetters(core, name) || InSmallLetters(core + ".", name));
      CoreOfCanonical(core, name);
      TrimSpaceMeans(value, core);
    }
  }

  lemma DotInSmallLetters(core: string, name: string)
    ensures InSmallLetters(core + ".", name) <==> ToLower(core) + "." == name
  {
    ToLowerAt(core);
    ToLowerAt(core + ".");
    ToLowerMeans(core + ".", name);
    assert ToLower(core + ".") == ToLower(core) + ".";
  }

  /** Only a canonical name's own spellings fold to it. */
  lemma SpellsFolded(value: string, name: string)
    ensures Canonical(name) ==> (Spells(value, name) <==> Dotted(Fold(value)) == name)
  {
    hide TrimSpace, ToLower, Canonical;
    if Canonical(name) {
      var core := TrimSpace(value);
      SpellsCore(value, name);
      LowerTrim(value);
      ToLowerMeans(core, name);
      DotInSmallLetters(core, name);
      CanonicalFacts(name);
    }
  }

  /**
    Accepts exactly the spellings of canonical names: any letter case, space
    around, final dot optional. The result is the name spelled, and a canonical
    name is its own.
  */
  method NormalizeFqdn(value: string) returns (r: Result<string, NameError>)
    ensures r.Ok? <==> Canonical(Dotted(Fold(value)))
    ensures r.Ok? ==> r.value == Dotted(Fold(value))
    ensures r.Ok? <==> exists name :: Canonical(name) && Spells(value, name)
    ensures r.Ok? ==> Canonical(r.value) && Spells(value, r.value)
    ensures Canonical(value) ==> r == Ok(value)
  {
    hide Canonical, Spells, Split, TrimSpace, ToLower, TrimSuffix, HasSuffix;
    CanonicalFixed(value);
    forall name ensures Canonical(name) ==> (Spells(value, name) <==> Dotted(Fold(value)) == name) {
      SpellsFolded(value, name);
    }
    var name := TrimSpace(ToLower(value));
    DottedFacts(name);
    if name == "" {
      return Err(Required);
    }
    if exists c :: c in name && c in " \t\r\n" {
      return Err(Whitespace);
    }
    if !HasSuffix(name, ".") {
      name := name + ".";
    }
    if |name| > MAX_NAME {
      return Err(TooLong);
    }
    var labels := Split(TrimSuffix(name, "."), '.');
    LabelsOfSpelling(name);
    for i := 0 to |labels|
      invariant forall k :: 0 <= k < i ==> GoodLabel(labels[k])
    {
      var problem := CheckLabel(labels[i]);
      if problem.Some? {
        assert labels[i] in labels;
        return Err(problem.value);
      }
    }
    return Ok(name);
  }

  lemma SuffixByLabels(n: string, z: string)
    requires HasSuffix(n, "." + z)
    ensures exists head :: Split(n, '.') == head + Split(z, '.')
  {
    var head := n[..|n| - |z| - 1];
    assert n == head + ['.'] + z;
    SplitAtSeparator(head, z, '.');
  }

  lemma LabelsBySuffix(n: string, z: string, head: seq<string>)
    requires Split(n, '.') == head + Split(z, '.')
    ensures n == z || HasSuffix(n, "." + z)
  {
    JoinSplit(n, '.');
    JoinSplit(z, '.');
    if head == [] {
      assert Split(n, '.') == Split(z, '.');
    } else {
      JoinAppend(head, Split(z, '.'), '.');
      assert n == Join(head, '.') + ("." + z);
    }
  }

  /** The string test for zone membership is the hierarchy test of section 3.1 of RFC 1034. */
  lemma ZoneContainment(name: string, zone: string)
    ensures IsNameWithinZone(name, zone) <==> exists head :: Labels(name) == head + Labels(zone)
  {
    hide Split, TrimSuffix, HasSuffix;
    var n, z := TrimSuffix(name, "."), TrimSuffix(zone, ".");
    if n == z {
      assert Labels(name) == [] + Labels(zone);
    } else if HasSuffix(n, "." + z) {
      SuffixByLabels(n, z);
      var head :| Split(n, '.') == head + Split(z, '.');
      assert Labels(name) == head + Labels(zone);
    }
    if head :| Labels(name) == head + Labels(zone) {
      LabelsBySuffix(n, z, head);
    }
  }

  lemma NormalizedShape(name: string)
    ensures var t := NormalizeName(name);
      t != "" ==> !IsSpace(t[0]) && forall c :: c in t ==> LowerChar(c) == c
  {
    hide TrimSpace, ToLower;
    var t, trimmed := NormalizeName(name), TrimSpace(name);
    TrimSpaceEnds(name);
    ToLowerAt(trimmed);
    if t != "" {
      assert t[0] == LowerChar(trimmed[0]);
      forall c | c in t ensures LowerChar(c) == c {
        var i :| 0 <= i < |t| && t[i] == c;
        assert c == LowerChar(trimmed[i]);
      }
    }
  }

  lemma RenormalizedLength(t: string)
    requires t != "" && !IsSpace(t[0])
    ensures IsSpace(t[|t| - 1]) ==> |NormalizeName(t)| < |t|
  {
    TrimRightEnds(t);
    ToLowerAt(TrimSpace(t));
  }

  lemma NormalizedTwice(name: string)
    ensures var t := NormalizeName(name);
      NormalizeName(t) == t <==> t == "" || (t[|t| - 1] != '.' && !IsSpace(t[|t| - 1]))
  {
    hide TrimSpace, ToLower;
    var t := NormalizeName(name);
    NormalizedShape(name);
    if t == "" {
      TrimSpaceFixed(t);
      ToLowerFixed(t);
    } else {
      RenormalizedLength(t);
      if !IsSpace(t[|t| - 1]) {
        TrimSpaceFixed(t);
        ToLowerFixed(t);
      }
    }
  }

  /** Space trimmed, the name still ends in a dot behind another dot or a space. */
  predicate LeavesEnd(name: string) {
    var u := TrimSpace(name);
    |u| >= 2 && u[|u| - 1] == '.' && (u[|u| - 2] == '.' || IsSpace(u[|u| - 2]))
  }

  /** Normalising twice differs from normalising once exactly when the dot taken away uncovers a dot or a space. */
  lemma NormalizeNameIdempotence(name: string)
    ensures NormalizeName(NormalizeName(name)) == NormalizeName(name) <==> !LeavesEnd(name)
  {
    var u, t := TrimSpace(name), NormalizeName(name);
    TrimSpaceEnds(name);
    ToLowerAt(u);
    NormalizedTwice(name);
    if t != "" {
      assert t[|t| - 1] == LowerChar(u[|t| - 1]);
    }
  }

  /** A name with two final dots is such a name. */
  lemma TwoFinalDots()
    ensures LeavesEnd("a..") && NormalizeName("a..") == "a." && NormalizeName("a.") == "a"
  {
    TrimSpaceFixed("a..");
    ToLowerFixed("a..");
    TrimSpaceFixed("a.");
    ToLowerFixed("a.");
  }

  /** The name used with the provider, and the name shown when it is read back. */
  function NormalizeApiName(name: string): string {
    NormalizeName(name)
  }

  function NormalizeProviderName(name: string): string {
    NormalizeName(name) + "."
  }

  /** A canonical name survives the way to the provider and back. */
  lemma NameRoundTrip(name: string)
    requires Canonical(name)
    ensures NormalizeApiName(name) + "." == name
    ensures NormalizeApiName(NormalizeApiName(name)) == NormalizeApiName(name)
    ensures NormalizeProviderName(NormalizeApiName(name)) == name
    ensures NormalizeName(NormalizeProviderName(NormalizeApiName(name))) == NormalizeName(name)
  {
    CanonicalFacts(name);
    TrimSpaceFixed(name);
    ToLowerFixed(name);
    var bare := name[..|name| - 1];
    assert NormalizeName(name) == bare;
    TrimSpaceFixed(bare);
    ToLowerFixed(bare);
    assert NormalizeName(bare) == bare;
  }

  /** A stored name that passes the read filter for a canonical name is shown under exactly that name. */
  lemma ReadBackName(stored: string, name: string)
    requires Canonical(name) && NormalizeApiName(stored) == NormalizeApiName(name)
    ensures NormalizeProviderName(stored) == name
    ensures NormalizeName(NormalizeProviderName(stored)) == NormalizeName(name)
  {
    NameRoundTrip(name);
  }

  /** The read filter passes exactly the spellings of the name. */
  lemma FilterMeans(stored: string, name: string)
    requires Canonical(name)
    ensures NormalizeApiName(stored) == NormalizeApiName(name) <==> Spells(stored, name)
  {
    hide TrimSpace, ToLower, Canonical;
    var core := TrimSpace(stored);
    NameRoundTrip(name);
    SpellsCore(stored, name);
    ToLowerMeans(core, name);
    DotInSmallLetters(core, name);
    CanonicalFacts(name);
    var bare := name[..|name| - 1];
    assert name == bare + ".";
    assert !HasSuffix(bare, ".");
  }

  /** The labels of a name that is spelled from labels are those labels. */
  lemma LabelsOfCanonical(labels: seq<string>)
    requires labels != [] && forall l :: l in labels ==> GoodLabel(l)
    ensures Labels(Join(labels, '.') + ".") == labels
  {
    assert TrimSuffix(Join(labels, '.') + ".", ".") == Join(labels, '.');
    SplitJoin(labels, '.');
  }
}
