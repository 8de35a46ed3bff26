/** Band selection (radio_policy.c): an LTE choice is expanded with every advertised band of
    the other allowed families, then the whole request is resolved against the advertised
    bands. */
module RadioPolicy {
  import opened Common

  const REQUEST_BANDS_MAX: nat := 64
  const BAND_NAME_MAX: nat := 48

  datatype Family = G2 | G3 | G4 | G5

  datatype Band = Band(name: string, value: nat, family: Option<Family>)

  datatype Refusal = InvalidArgument | UnsupportedBand | ModesUnknown | FamilyMismatch
  datatype Policy<T> = Granted(value: T) | Refused(why: Refusal)

  const ANY: string := "any"

  // ----- names and families ----------------------------------------------------------------------

  predicate Canonical(name: string) {
    && 0 < |name| <= BAND_NAME_MAX
    && (forall i | 0 <= i < |name| :: 'a' <= name[i] <= 'z' || '0' <= name[i] <= '9' || (i > 0 && name[i] == '-'))
    && name[|name| - 1] != '-'
  }

  predicate StartsWith(name: string, prefix: string) {
    |prefix| <= |name| && name[..|prefix|] == prefix
  }

  predicate IsGsm(name: string) {
    name in ["egsm", "dcs", "pcs", "g850", "g450", "g480", "g750", "g380", "g410", "g710", "g810"]
  }

  function BandFamily(name: string): Option<Family> {
    if !Canonical(name) || name == ANY then None
    else if IsGsm(name) then Some(G2)
    else if StartsWith(name, "utran-") then Some(G3)
    else if StartsWith(name, "eutran-") then Some(G4)
    else if StartsWith(name, "ngran-") then Some(G5)
    else None
  }

  /** Advertised bands as the bridge snapshots them: distinct names, families by name. */
  ghost predicate Advertised(supported: seq<Band>) {
    && (forall i, j | 0 <= i < j < |supported| :: supported[i].name != supported[j].name)
    && (forall i | 0 <= i < |supported| :: supported[i].family == BandFamily(supported[i].name))
  }

  // ----- expansion ----------------------------------------------------------------------------------

  predicate IsOther(b: Band, allowed: set<Family>) {
    b.family.Some? && b.family != Some(G4) && b.family.value in allowed
  }

  /** Advertised bands of the allowed families other than LTE. */
  function Others(supported: seq<Band>, allowed: set<Family>): seq<Band> {
    if supported == [] then []
    else
      var rest := Others(supported[..|supported| - 1], allowed);
      var last := supported[|supported| - 1];
      if IsOther(last, allowed) then rest + [last] else rest
  }

  function Names(bands: seq<Band>): seq<string> {
    seq(|bands|, i requires 0 <= i < |bands| => bands[i].name)
  }

  function Expanded(requested: seq<string>, supported: seq<Band>, allowed: set<Family>): Policy<seq<string>> {
    if requested == [] || |requested| > REQUEST_BANDS_MAX || supported == [] then Refused(InvalidArgument)
    else if requested == [ANY] then Granted(requested)
    else if G4 !in allowed then Refused(FamilyMismatch)
    else if exists i | 0 <= i < |requested| :: BandFamily(requested[i]) != Some(G4) then Refused(InvalidArgument)
    else if |requested| + |Others(supported, allowed)| > REQUEST_BANDS_MAX then Refused(InvalidArgument)
    else Granted(requested + Names(Others(supported, allowed)))
  }

  method CopyRequested(requested: seq<string>, effective: array<string>) returns (lte: bool)
    requires |requested| <= effective.Length
    modifies effective
    ensures lte <==> forall i | 0 <= i < |requested| :: BandFamily(requested[i]) == Some(G4)
    ensures lte ==> effective[..|requested|] == requested
  {
    var index := 0;
    while index < |requested|
      invariant index <= |requested| && effective[..index] == requested[..index]
      invariant forall i | 0 <= i < index :: BandFamily(requested[i]) == Some(G4)
    {
      if BandFamily(requested[index]) != Some(G4) {
        return false;
      }
      effective[index] := requested[index];
      index := index + 1;
    }
    lte := true;
  }

  method AppendOthers(supported: seq<Band>, allowed: set<Family>, effective: array<string>, start: nat)
    returns (fits: bool, count: nat)
    requires start <= effective.Length == REQUEST_BANDS_MAX
    modifies effective
    ensures fits <==> start + |Others(supported, allowed)| <= REQUEST_BANDS_MAX
    ensures fits ==> count == start + |Others(supported, allowed)|
                     && effective[..count] == old(effective[..start]) + Names(Others(supported, allowed))
  {
    var index := 0;
    count := start;
    while index < |supported|
      invariant index <= |supported|
      invariant count == start + |Others(supported[..index], allowed)| <= REQUEST_BANDS_MAX
      invariant effective[..count] == old(effective[..start]) + Names(Others(supported[..index], allowed))
    {
      assert supported[..index + 1][..index] == supported[..index];
      if IsOther(supported[index], allowed) {
        if count >= REQUEST_BANDS_MAX {
          OthersGrow(supported, index + 1, allowed);
          return false, count;
        }
        effective[count] := supported[index].name;
        count := count + 1;
      }
      index := index + 1;
    }
    assert supported[..index] == supported;
    fits := true;
  }

  /** The expansion writes the effective request into a buffer of 64 names. */
  method Expand(requested: seq<string>, supported: seq<Band>, allowed: set<Family>, effective: array<string>)
    returns (refusal: Option<Refusal>, count: nat)
    requires effective.Length == REQUEST_BANDS_MAX
    modifies effective
    ensures match Expanded(requested, supported, allowed)
            case Refused(why) => refusal == Some(why)
            case Granted(names) => refusal.None? && count == |names| <= REQUEST_BANDS_MAX && effective[..count] == names
  {
    refusal, count := None, 0;
    if requested == [] || |requested| > REQUEST_BANDS_MAX || supported == [] {
      return Some(InvalidArgument), 0;
    }
    if |requested| == 1 && requested[0] == ANY {
      effective[0] := requested[0];
      assert requested == [ANY];
      return None, 1;
    }
    if G4 !in allowed {
      return Some(FamilyMismatch), 0;
    }
    var lte := CopyRequested(requested, effective);
    if !lte {
      return Some(InvalidArgument), 0;
    }
    var fits;
    fits, count := AppendOthers(supported, allowed, effective, |requested|);
    if !fits {
      return Some(InvalidArgument), 0;
    }
  }

  lemma {:induction false} OthersGrow(supported: seq<Band>, n: nat, allowed: set<Family>)
    requires n <= |supported|
    ensures |Others(supported[..n], allowed)| <= |Others(supported, allowed)|
  {
    if n == |supported| {
      assert supported[..n] == supported;
    } else {
      var shorter := supported[..|supported| - 1];
      OthersGrow(shorter, n, allowed);
      assert shorter[..n] == supported[..n];
    }
  }

  // ----- resolution -----------------------------------------------------------------------------------

  function FindBand(supported: seq<Band>, name: string): (i: nat)
    ensures i <= |supported| && (i < |supported| ==> supported[i].name == name) && forall k | 0 <= k < i :: supported[k].name != name
  {
    if supported == [] || supported[0].name == name then 0 else 1 + FindBand(supported[1..], name)
  }

  /** The next name, after the first `i` gave these families and values. */
  function ResolveOne(requested: seq<string>, i: nat, supported: seq<Band>, allowed: set<Family>): Policy<Band>
    requires i < |requested|
  {
    var k := FindBand(supported, requested[i]);
    if !Canonical(requested[i]) || requested[i] == ANY then Refused(InvalidArgument)
    else if exists j | 0 <= j < i :: requested[j] == requested[i] then Refused(InvalidArgument)
    else if k == |supported| then Refused(UnsupportedBand)
    else if supported[k].family.None? || supported[k].family.value !in allowed then Refused(FamilyMismatch)
    else Granted(supported[k])
  }

  function ResolveFirst(requested: seq<string>, n: nat, supported: seq<Band>, allowed: set<Family>): Policy<seq<Band>>
    requires n <= |requested|
  {
    if n == 0 then Granted([])
    else
      var before := ResolveFirst(requested, n - 1, supported, allowed);
      if before.Refused? then before
      else
        var one := ResolveOne(requested, n - 1, supported, allowed);
        if one.Refused? then Refused(one.why) else Granted(before.value + [one.value])
  }

  ghost function Families(bands: seq<Band>): set<Family> {
    set i | 0 <= i < |bands| && bands[i].family.Some? :: bands[i].family.value
  }

  function Values(bands: seq<Band>): seq<nat> {
    seq(|bands|, i requires 0 <= i < |bands| => bands[i].value)
  }

  ghost function Resolved(requested: seq<string>, supported: seq<Band>, modesKnown: bool, allowed: set<Family>, anyValue: nat): Policy<seq<nat>> {
    if requested == [] || |requested| > REQUEST_BANDS_MAX then Refused(InvalidArgument)
    else if !modesKnown || allowed == {} then Refused(ModesUnknown)
    else if supported == [] then Refused(UnsupportedBand)
    else if requested == [ANY] then Granted([anyValue])
    else
      var bands := ResolveFirst(requested, |requested|, supported, allowed);
      if bands.Refused? then Refused(bands.why)
      else if Families(bands.value) != allowed then Refused(FamilyMismatch)
      else Granted(Values(bands.value))
  }

  method FindSupported(supported: seq<Band>, name: string) returns (i: nat)
    ensures i == FindBand(supported, name)
  {
    i := 0;
    while i < |supported| && supported[i].name != name
      invariant i <= |supported| && FindBand(supported, name) == i + FindBand(supported[i..], name)
    {
      assert supported[i..][1..] == supported[i + 1..];
      i := i + 1;
    }
  }

  method CheckOne(requested: seq<string>, i: nat, supported: seq<Band>, allowed: set<Family>) returns (one: Policy<Band>)
    requires i < |requested|
    ensures one == ResolveOne(requested, i, supported, allowed)
  {
    if !Canonical(requested[i]) || requested[i] == ANY {
      return Refused(InvalidArgument);
    }
    var previous := 0;
    while previous < i
      invariant previous <= i && forall j | 0 <= j < previous :: requested[j] != requested[i]
    {
      if requested[i] == requested[previous] {
        return Refused(InvalidArgument);
      }
      previous := previous + 1;
    }
    var k := FindSupported(supported, requested[i]);
    if k == |supported| {
      return Refused(UnsupportedBand);
    }
    if supported[k].family.None? || supported[k].family.value !in allowed {
      return Refused(FamilyMismatch);
    }
    one := Granted(supported[k]);
  }

  lemma {:induction false} RefusalStays(requested: seq<string>, n: nat, m: nat, supported: seq<Band>, allowed: set<Family>)
    requires n <= m <= |requested| && ResolveFirst(requested, n, supported, allowed).Refused?
    ensures ResolveFirst(requested, m, supported, allowed) == ResolveFirst(requested, n, supported, allowed)
  {
    if n < m { RefusalStays(requested, n, m - 1, supported, allowed); }
  }

  /** The resolution loop writes the values and collects the families met. */
  method Resolve(requested: seq<string>, supported: seq<Band>, modesKnown: bool, allowed: set<Family>, anyValue: nat, resolved: array<nat>)
    returns (refusal: Option<Refusal>)
    requires resolved.Length == REQUEST_BANDS_MAX
    modifies resolved
    ensures match Resolved(requested, supported, modesKnown, allowed, anyValue)
            case Refused(why) => refusal == Some(why)
            case Granted(values) => refusal.None? && |values| == |requested| <= REQUEST_BANDS_MAX && resolved[..|requested|] == values
  {
    if requested == [] || |requested| > REQUEST_BANDS_MAX {
      return Some(InvalidArgument);
    }
    if !modesKnown || allowed == {} {
      return Some(ModesUnknown);
    }
    if supported == [] {
      return Some(UnsupportedBand);
    }
    if |requested| == 1 && requested[0] == ANY {
      resolved[0] := anyValue;
      assert requested == [ANY];
      return None;
    }
    var one, families := ResolveNames(requested, supported, allowed, resolved);
    if one.Some? {
      return one;
    }
    if families != allowed {
      return Some(FamilyMismatch);
    }
    refusal := None;
  }

  method ResolveNames(requested: seq<string>, supported: seq<Band>, allowed: set<Family>, resolved: array<nat>)
    returns (refusal: Option<Refusal>, families: set<Family>)
    requires |requested| <= resolved.Length
    modifies resolved
    ensures match ResolveFirst(requested, |requested|, supported, allowed)
            case Refused(why) => refusal == Some(why)
            case Granted(bands) =>
              refusal.None? && |bands| == |requested| && families == Families(bands) && resolved[..|requested|] == Values(bands)
  {
    families := {};
    var index := 0;
    ghost var bands: seq<Band> := [];
    while index < |requested|
      invariant index <= |requested| && |bands| == index
      invariant ResolveFirst(requested, index, supported, allowed) == Granted(bands)
      invariant families == Families(bands) && resolved[..index] == Values(bands)
    {
      var one := CheckOne(requested, index, supported, allowed);
      if one.Refused? {
        RefusalStays(requested, index + 1, |requested|, supported, allowed);
        return Some(one.why), families;
      }
      FamiliesGrow(bands, one.value);
      families := families + {one.value.family.value};
      resolved[index] := one.value.value;
      bands := bands + [one.value];
      index := index + 1;
    }
    refusal := None;
  }

  lemma FamiliesGrow(bands: seq<Band>, b: Band)
    requires b.family.Some?
    ensures Families(bands + [b]) == Families(bands) + {b.family.value}
  {
    var longer := bands + [b];
    forall f | f in Families(bands) ensures f in Families(longer) {
      var i :| 0 <= i < |bands| && bands[i].family == Some(f);
      assert longer[i].family == Some(f);
    }
    assert longer[|bands|] == b;
  }

  // ----- the two steps together -----------------------------------------------------------------------

  /** Expand, then resolve what was expanded, as the set-bands method does. */
  ghost function Selected(requested: seq<string>, supported: seq<Band>, allowed: set<Family>, anyValue: nat): Policy<seq<nat>> {
    var effective := Expanded(requested, supported, allowed);
    if effective.Refused? then Refused(effective.why)
    else Resolved(effective.value, supported, true, allowed, anyValue)
  }

  /** Requested names are distinct advertised LTE bands. */
  ghost predicate LteChoice(requested: seq<string>, supported: seq<Band>) {
    && requested != []
    && (forall i, j | 0 <= i < j < |requested| :: requested[i] != requested[j])
    && (forall i | 0 <= i < |requested| :: BandFamily(requested[i]) == Some(G4) && FindBand(supported, requested[i]) < |supported|)
  }

  /** Every allowed family other than LTE has an advertised band. */
  ghost predicate FamiliesServed(supported: seq<Band>, allowed: set<Family>) {
    forall f | f in allowed && f != G4 :: exists i :: 0 <= i < |supported| && supported[i].family == Some(f)
  }

  /** The bands that the names stand for. */
  function BandsOf(names: seq<string>, supported: seq<Band>): seq<Band>
    requires forall i | 0 <= i < |names| :: FindBand(supported, names[i]) < |supported|
  {
    seq(|names|, i requires 0 <= i < |names| => supported[FindBand(supported, names[i])])
  }

  lemma {:induction false} OthersAre(supported: seq<Band>, allowed: set<Family>)
    ensures forall b :: b in Others(supported, allowed) <==> b in supported && IsOther(b, allowed)
    ensures Advertised(supported) ==>
              forall i, j | 0 <= i < j < |Others(supported, allowed)| :: Others(supported, allowed)[i].name != Others(supported, allowed)[j].name
  {
    if supported != [] {
      var last := |supported| - 1;
      var shorter := supported[..last];
      OthersAre(shorter, allowed);
      assert supported == shorter + [supported[last]];
      var rest := Others(shorter, allowed);
      if Advertised(supported) {
        forall i | 0 <= i < |rest| ensures rest[i].name != supported[last].name {
          assert rest[i] in rest;
          var k :| 0 <= k < last && supported[k] == rest[i];
        }
      }
    }
  }

  ghost predicate Resolvable(names: seq<string>, supported: seq<Band>, allowed: set<Family>, n: nat)
    requires n <= |names|
  {
    && (forall i | 0 <= i < n :: NameFits(names[i], supported, allowed))
    && (forall i, j | 0 <= i < j < n :: names[i] != names[j])
  }

  ghost predicate NameFits(name: string, supported: seq<Band>, allowed: set<Family>) {
    && Canonical(name) && name != ANY && FindBand(supported, name) < |supported|
    && supported[FindBand(supported, name)].family.Some? && supported[FindBand(supported, name)].family.value in allowed
  }

  lemma OneIff(names: seq<string>, supported: seq<Band>, allowed: set<Family>, i: nat)
    requires i < |names|
    ensures ResolveOne(names, i, supported, allowed).Granted? <==>
            NameFits(names[i], supported, allowed) && forall j | 0 <= j < i :: names[j] != names[i]
    ensures ResolveOne(names, i, supported, allowed).Granted? ==>
              ResolveOne(names, i, supported, allowed).value == supported[FindBand(supported, names[i])]
  {
  }

  lemma {:induction false} ResolvesIff(names: seq<string>, supported: seq<Band>, allowed: set<Family>, n: nat)
    requires n <= |names|
    ensures ResolveFirst(names, n, supported, allowed).Granted? <==> Resolvable(names, supported, allowed, n)
  {
    if n > 0 {
      ResolvesIff(names, supported, allowed, n - 1);
      OneIff(names, supported, allowed, n - 1);
    }
  }

  lemma GrantedIs(names: seq<string>, supported: seq<Band>, allowed: set<Family>, i: nat)
    requires i < |names| && ResolveOne(names, i, supported, allowed).Granted?
    ensures FindBand(supported, names[i]) < |supported|
    ensures ResolveOne(names, i, supported, allowed).value == supported[FindBand(supported, names[i])]
  {
  }

  lemma {:induction false} ResolvesTo(names: seq<string>, supported: seq<Band>, allowed: set<Family>, n: nat)
    requires n <= |names| && ResolveFirst(names, n, supported, allowed).Granted?
    ensures |ResolveFirst(names, n, supported, allowed).value| == n
    ensures forall i | 0 <= i < n ::
              FindBand(supported, names[i]) < |supported|
              && ResolveFirst(names, n, supported, allowed).value[i] == supported[FindBand(supported, names[i])]
  {
    if n > 0 {
      ResolvesTo(names, supported, allowed, n - 1);
      GrantedIs(names, supported, allowed, n - 1);
    }
  }

  /** What the expansion makes of an LTE request. */
  function Effective(requested: seq<string>, supported: seq<Band>, allowed: set<Family>): seq<string> {
    requested + Names(Others(supported, allowed))
  }

  lemma OtherFits(supported: seq<Band>, allowed: set<Family>, k: nat)
    requires Advertised(supported) && k < |Others(supported, allowed)|
    ensures var b := Others(supported, allowed)[k];
            NameFits(b.name, supported, allowed) && supported[FindBand(supported, b.name)] == b
            && BandFamily(b.name) == b.family && IsOther(b, allowed) && b in supported
  {
    OthersAre(supported, allowed);
    var b := Others(supported, allowed)[k];
    assert b in Others(supported, allowed);
  }

  lemma LteFits(supported: seq<Band>, allowed: set<Family>, name: string)
    requires Advertised(supported) && G4 in allowed && BandFamily(name) == Some(G4)
    ensures NameFits(name, supported, allowed) <==> FindBand(supported, name) < |supported|
    ensures FindBand(supported, name) < |supported| ==> supported[FindBand(supported, name)].family == Some(G4)
  {
  }

  lemma ConcatResolves(a: seq<string>, b: seq<string>, supported: seq<Band>, allowed: set<Family>)
    requires Resolvable(b, supported, allowed, |b|)
    requires forall i, j | 0 <= i < |a| && 0 <= j < |b| :: a[i] != b[j]
    ensures Resolvable(a + b, supported, allowed, |a + b|) <==> Resolvable(a, supported, allowed, |a|)
  {
    var c := a + b;
    assert forall i | 0 <= i < |a| :: c[i] == a[i];
    assert forall j | 0 <= j < |b| :: c[|a| + j] == b[j];
    if Resolvable(a, supported, allowed, |a|) {
      forall i | 0 <= i < |c| ensures NameFits(c[i], supported, allowed) {
        if i >= |a| { assert NameFits(b[i - |a|], supported, allowed); }
      }
      forall i, j | 0 <= i < j < |c| ensures c[i] != c[j] {
        if i >= |a| { assert b[i - |a|] != b[j - |a|]; }
      }
    }
  }

  lemma OthersResolve(supported: seq<Band>, allowed: set<Family>)
    requires Advertised(supported)
    ensures var names := Names(Others(supported, allowed));
            && Resolvable(names, supported, allowed, |names|)
            && forall k | 0 <= k < |names| :: BandFamily(names[k]) != Some(G4)
  {
    var others := Others(supported, allowed);
    var names := Names(others);
    OthersAre(supported, allowed);
    forall k | 0 <= k < |names| ensures NameFits(names[k], supported, allowed) && BandFamily(names[k]) != Some(G4) {
      OtherFits(supported, allowed, k);
    }
    forall i, j | 0 <= i < j < |names| ensures names[i] != names[j] {
      assert others[i].name != others[j].name;
    }
  }

  lemma ChoiceResolves(requested: seq<string>, supported: seq<Band>, allowed: set<Family>)
    requires Advertised(supported) && G4 in allowed && requested != []
    requires forall i | 0 <= i < |requested| :: BandFamily(requested[i]) == Some(G4)
    ensures Resolvable(requested, supported, allowed, |requested|) <==> LteChoice(requested, supported)
  {
    forall i | 0 <= i < |requested| ensures NameFits(requested[i], supported, allowed) <==> FindBand(supported, requested[i]) < |supported| {
      LteFits(supported, allowed, requested[i]);
    }
  }

  /** The expanded request resolves exactly when the request is a proper LTE choice. */
  lemma EffectiveResolves(requested: seq<string>, supported: seq<Band>, allowed: set<Family>)
    requires Advertised(supported) && G4 in allowed && requested != []
    requires forall i | 0 <= i < |requested| :: BandFamily(requested[i]) == Some(G4)
    ensures var names := Effective(requested, supported, allowed);
            Resolvable(names, supported, allowed, |names|) <==> LteChoice(requested, supported)
  {
    OthersResolve(supported, allowed);
    ChoiceResolves(requested, supported, allowed);
    var others := Names(Others(supported, allowed));
    forall i, j | 0 <= i < |requested| && 0 <= j < |others| ensures requested[i] != others[j] {
      assert BandFamily(requested[i]) != BandFamily(others[j]);
    }
    ConcatResolves(requested, others, supported, allowed);
  }

  lemma EffectiveBands(requested: seq<string>, supported: seq<Band>, allowed: set<Family>)
    requires Advertised(supported) && LteChoice(requested, supported)
    ensures var names := Effective(requested, supported, allowed);
            && (forall i | 0 <= i < |names| :: FindBand(supported, names[i]) < |supported|)
            && BandsOf(names, supported) == BandsOf(requested, supported) + Others(supported, allowed)
  {
    var names, others := Effective(requested, supported, allowed), Others(supported, allowed);
    var r := |requested|;
    forall i | 0 <= i < |names| ensures FindBand(supported, names[i]) < |supported| {
      if i < r { assert names[i] == requested[i]; } else { OtherFits(supported, allowed, i - r); }
    }
    var bands := BandsOf(names, supported);
    forall i | 0 <= i < |names| ensures bands[i] == (BandsOf(requested, supported) + others)[i] {
      if i < r { assert names[i] == requested[i]; } else { OtherFits(supported, allowed, i - r); }
    }
  }

  /** An allowed family other than LTE is met exactly when some advertised band has it. */
  lemma FamilyMet(supported: seq<Band>, allowed: set<Family>, f: Family)
    requires f in allowed && f != G4
    ensures f in Families(Others(supported, allowed)) <==> exists i :: 0 <= i < |supported| && supported[i].family == Some(f)
  {
    var others := Others(supported, allowed);
    OthersAre(supported, allowed);
    if f in Families(others) {
      var i :| 0 <= i < |others| && others[i].family == Some(f);
      assert others[i] in others;
      var k :| 0 <= k < |supported| && supported[k] == others[i];
      assert supported[k].family == Some(f);
    }
    if i :| 0 <= i < |supported| && supported[i].family == Some(f) {
      assert supported[i] in others;
      var k :| 0 <= k < |others| && others[k] == supported[i];
      assert others[k].family == Some(f);
    }
  }

  lemma OtherFamilies(supported: seq<Band>, allowed: set<Family>)
    ensures forall f | f in Families(Others(supported, allowed)) :: f in allowed && f != G4
  {
    var others := Others(supported, allowed);
    OthersAre(supported, allowed);
    forall f | f in Families(others) ensures f in allowed && f != G4 {
      var i :| 0 <= i < |others| && others[i].family == Some(f);
      assert others[i] in others;
    }
  }

  lemma FamiliesConcat(a: seq<Band>, b: seq<Band>)
    ensures Families(a + b) == Families(a) + Families(b)
  {
    var c := a + b;
    forall f ensures f in Families(c) <==> f in Families(a) || f in Families(b) {
      if f in Families(c) {
        var i :| 0 <= i < |c| && c[i].family == Some(f);
        if i < |a| { assert a[i].family == Some(f); } else { assert b[i - |a|].family == Some(f); }
      }
      if f in Families(a) {
        var i :| 0 <= i < |a| && a[i].family == Some(f);
        assert c[i].family == Some(f);
      }
      if f in Families(b) {
        var i :| 0 <= i < |b| && b[i].family == Some(f);
        assert c[|a| + i].family == Some(f);
      }
    }
  }

  lemma ChosenFamilies(requested: seq<string>, supported: seq<Band>)
    requires Advertised(supported) && LteChoice(requested, supported)
    ensures Families(BandsOf(requested, supported)) == {G4}
  {
    var chosen := BandsOf(requested, supported);
    forall i | 0 <= i < |chosen| ensures chosen[i].family == Some(G4) {
      LteFits(supported, {G4}, requested[i]);
    }
    assert chosen[0].family == Some(G4);
  }

  /** The families met are the allowed ones exactly when each of them is served. */
  lemma FamiliesMet(requested: seq<string>, supported: seq<Band>, allowed: set<Family>)
    requires Advertised(supported) && LteChoice(requested, supported) && G4 in allowed
    ensures Families(BandsOf(requested, supported) + Others(supported, allowed)) == allowed <==> FamiliesServed(supported, allowed)
  {
    FamiliesConcat(BandsOf(requested, supported), Others(supported, allowed));
    ChosenFamilies(requested, supported);
    OtherFamilies(supported, allowed);
    forall f | f in allowed && f != G4
      ensures f in Families(Others(supported, allowed)) <==> exists i :: 0 <= i < |supported| && supported[i].family == Some(f)
    {
      FamilyMet(supported, allowed, f);
    }
  }

  /** When a selection of names other than "any" is granted. */
  ghost predicate GoodSelection(requested: seq<string>, supported: seq<Band>, allowed: set<Family>) {
    && G4 in allowed && LteChoice(requested, supported) && FamiliesServed(supported, allowed)
    && |requested| + |Others(supported, allowed)| <= REQUEST_BANDS_MAX
  }

  lemma ResolvedNames(names: seq<string>, supported: seq<Band>, allowed: set<Family>, anyValue: nat)
    requires names != [] && names != [ANY] && |names| <= REQUEST_BANDS_MAX && supported != [] && allowed != {}
    ensures Resolved(names, supported, true, allowed, anyValue).Granted? <==>
            && Resolvable(names, supported, allowed, |names|)
            && (forall i | 0 <= i < |names| :: FindBand(supported, names[i]) < |supported|)
            && Families(BandsOf(names, supported)) == allowed
    ensures Resolved(names, supported, true, allowed, anyValue).Granted? ==>
            Resolved(names, supported, true, allowed, anyValue).value == Values(BandsOf(names, supported))
  {
    ResolvesIff(names, supported, allowed, |names|);
    assert names[..|names|] == names;
    if Resolvable(names, supported, allowed, |names|) {
      ResolvesTo(names, supported, allowed, |names|);
      assert ResolveFirst(names, |names|, supported, allowed).value == BandsOf(names, supported);
    }
  }

  /** Expand-then-resolve grants exactly "any" (with advertised bands and an allowed family),
      or distinct advertised LTE bands with 4G allowed, every other allowed family advertised
      and at most 64 bands in all; it then yields exactly the chosen bands followed by every
      advertised band of the other allowed families. */
  lemma SelectionIff(requested: seq<string>, supported: seq<Band>, allowed: set<Family>, anyValue: nat)
    requires Advertised(supported)
    ensures Selected(requested, supported, allowed, anyValue).Granted? <==>
            (requested == [ANY] && supported != [] && allowed != {}) || GoodSelection(requested, supported, allowed)
    ensures GoodSelection(requested, supported, allowed) ==>
            Selected(requested, supported, allowed, anyValue) ==
            Granted(Values(BandsOf(requested, supported) + Others(supported, allowed)))
    ensures requested == [ANY] && supported != [] && allowed != {} ==>
            Selected(requested, supported, allowed, anyValue) == Granted([anyValue])
  {
    if requested == [ANY] {
      assert BandFamily(ANY).None?;
      assert !LteChoice(requested, supported) by { assert BandFamily(requested[0]).None?; }
    } else if Expanded(requested, supported, allowed).Refused? {
      assert LteChoice(requested, supported) ==> FindBand(supported, requested[0]) < |supported|;
    } else if Expanded(requested, supported, allowed).Granted? {
      var names := Effective(requested, supported, allowed);
      ResolvedNames(names, supported, allowed, anyValue);
      EffectiveResolves(requested, supported, allowed);
      if LteChoice(requested, supported) {
        EffectiveBands(requested, supported, allowed);
        FamiliesMet(requested, supported, allowed);
      }
    }
  }
}
