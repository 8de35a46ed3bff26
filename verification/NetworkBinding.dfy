/** The netifd binding (network_binding.c): find the one interface section of a modem and
    write its two mode options. The configuration is a sequence of sections with string
    options. */
module NetworkBinding {
  import opened Common
  import opened CText

  const SECTION_MAX: nat := 64
  const MODE_MAX: nat := 15
  const DEVICE_MAX: nat := 4096

  datatype Section = Section(name: string, kind: string, anonymous: bool, options: map<string, string>)

  datatype Binding = Binding(section: string, allowed: Option<string>, preferred: Option<string>,
                             disableModem: bool, disableConfigured: bool)

  /** Cleared binding; modem teardown disables by default. */
  const NOTHING: Binding := Binding("", None, None, true, false)

  datatype Lookup = Missing | Unique(binding: Binding) | Ambiguous

  // ----- sections ------------------------------------------------------------------------------

  function Opt(s: Section, key: string): Option<string> {
    if key in s.options then Some(s.options[key]) else None
  }

  predicate Matches(s: Section, device: string) {
    && s.kind == "interface" && Opt(s, "proto") == Some("modemmanager")
    && Opt(s, "device") == Some(device) && |device| <= DEVICE_MAX
  }

  predicate SafeName(name: string) {
    && 0 < |name| <= SECTION_MAX
    && forall i | 0 <= i < |name| ::
         'a' <= name[i] <= 'z' || 'A' <= name[i] <= 'Z' || '0' <= name[i] <= '9' || name[i] == '_'
  }

  predicate Usable(s: Section) {
    !s.anonymous && SafeName(s.name)
  }

  // ----- the mode grammar ------------------------------------------------------------------------

  /** A generation and a "g". */
  predicate IsMode(token: string) {
    |token| == 2 && token[1] == 'g' && (token[0] == '2' || token[0] == '3' || token[0] == '4' || token[0] == '5')
  }

  /** The scan from `offset`, with the modes met so far. */
  predicate SafeFrom(value: string, offset: nat, modes: set<string>)
    requires offset <= |value|
    decreases |value| - offset
  {
    if offset == |value| then true
    else if |value| - offset < 2 then false
    else
      var token := value[offset..offset + 2];
      if !IsMode(token) || token in modes then false
      else if offset + 2 == |value| then true
      else value[offset + 2] == '|' && SafeFrom(value, offset + 3, modes + {token})
  }

  predicate AllowedSafe(value: string) {
    |value| <= MODE_MAX && (value == "any" || SafeFrom(value, 0, {}))
  }

  method AllowedModeIsSafe(value: string) returns (safe: bool)
    ensures safe <==> AllowedSafe(value)
  {
    if |value| > MODE_MAX {
      return false;
    }
    if |value| == 0 || value == "any" {
      return true;
    }
    var offset := 0;
    var modes: set<string> := {};
    while offset < |value|
      invariant offset <= |value| && SafeFrom(value, 0, {}) == SafeFrom(value, offset, modes)
    {
      if |value| - offset < 2 {
        return false;
      }
      var token := value[offset..offset + 2];
      if !IsMode(token) || token in modes {
        return false;
      }
      modes := modes + {token};
      offset := offset + 2;
      if offset == |value| {
        return true;
      }
      if value[offset] != '|' {
        return false;
      }
      offset := offset + 1;
    }
    safe := true;
  }

  /** Pieces between bars: distinct modes, of which the last piece may be empty. */
  predicate GoodParts(parts: seq<string>, modes: set<string>) {
    parts == [""] ||
    (parts != [] && IsMode(parts[0]) && parts[0] !in modes
     && (|parts| == 1 || GoodParts(parts[1..], modes + {parts[0]})))
  }

  /** The scan accepts exactly distinct modes separated by bars, with or without a bar after
      the last one. */
  lemma {:induction false} SafeIsGoodParts(value: string, offset: nat, modes: set<string>)
    requires offset <= |value|
    ensures SafeFrom(value, offset, modes) <==> GoodParts(Split(value[offset..], '|'), modes)
    decreases |value| - offset
  {
    var s := value[offset..];
    var i := Find(s, '|');
    SplitIs(s, '|');
    if |s| >= 2 && IsMode(s[..2]) {
      assert s[..2] == value[offset..offset + 2] && i >= 2;
      if |s| > 2 && s[2] == '|' {
        assert i == 2 && s[3..] == value[offset + 3..];
        assert Split(s, '|')[1..] == Split(s[3..], '|');
        SafeIsGoodParts(value, offset + 3, modes + {s[..2]});
      } else if |s| == 2 {
        assert Split(s, '|') == [s];
      } else {
        assert i > 2 && !IsMode(Split(s, '|')[0]);
      }
    } else {
    }
  }

  /** A trailing bar is accepted. */
  lemma TrailingBarIsSafe()
    ensures AllowedSafe("4g|")
  {
    assert "4g|"[0..2] == "4g";
    assert SafeFrom("4g|", 3, {"4g"});
  }

  predicate PreferredSafe(value: string) {
    value == "" || value == "none" || IsMode(value)
  }

  /** What the set-modes method accepts. */
  predicate ModesValid(allowed: string, preferred: string) {
    && (allowed == "3g|4g" || allowed == "3g" || allowed == "4g")
    && (preferred == "none" || (allowed == "3g|4g" && (preferred == "3g" || preferred == "4g")))
  }

  lemma ValidModesAreSafe(allowed: string, preferred: string)
    requires ModesValid(allowed, preferred)
    ensures AllowedSafe(allowed) && PreferredSafe(preferred)
  {
    assert "3g|4g"[0..2] == "3g" && "3g|4g"[3..5] == "4g";
    assert SafeFrom("3g|4g", 3, {"3g"});
    assert "3g"[0..2] == "3g" && "4g"[0..2] == "4g";
  }

  // ----- the scan ------------------------------------------------------------------------------------

  function BindingOf(s: Section): Binding {
    var allowed, preferred, disable := Opt(s, "allowedmode"), Opt(s, "preferredmode"), Opt(s, "disable_modem");
    Binding(s.name,
            if allowed.Some? && AllowedSafe(allowed.value) then allowed else None,
            if preferred.Some? && PreferredSafe(preferred.value) then preferred else None,
            disable != Some("0"), disable.Some?)
  }

  ghost predicate Only(sections: seq<Section>, device: string, i: int) {
    0 <= i < |sections| && Matches(sections[i], device) && forall j | 0 <= j < |sections| && Matches(sections[j], device) :: j == i
  }

  ghost predicate NoMatch(sections: seq<Section>, device: string) {
    forall i | 0 <= i < |sections| :: !Matches(sections[i], device)
  }

  /** The specification of the lookup: unique exactly when one section matches, and that one
      is named and safe. */
  ghost predicate IsLookup(sections: seq<Section>, device: string, result: Lookup) {
    match result
    case Missing => NoMatch(sections, device)
    case Unique(binding) => exists i :: Only(sections, device, i) && Usable(sections[i]) && binding == BindingOf(sections[i])
    case Ambiguous => !NoMatch(sections, device) && forall i | Only(sections, device, i) :: !Usable(sections[i])
  }

  class BindingScan {
    var matches: nat
    var unsafeMatch: bool
    var candidate: Binding

    constructor ()
      ensures matches == 0 && !unsafeMatch && After([], "")
    {
      matches, unsafeMatch, candidate := 0, false, NOTHING;
    }

    /** What the accumulator means after these sections. */
    ghost predicate After(sections: seq<Section>, device: string)
      reads this
    {
      && matches <= 2
      && (matches == 0 <==> NoMatch(sections, device))
      && (matches == 1 <==> exists i :: Only(sections, device, i))
      && (forall i | Only(sections, device, i) :: unsafeMatch == !Usable(sections[i]))
      && (forall i | Only(sections, device, i) && Usable(sections[i]) :: candidate == BindingOf(sections[i]))
    }

    method Consider(s: Section, device: string, ghost before: seq<Section>)
      requires After(before, device) && (matches == 0 ==> !unsafeMatch)
      modifies this
      ensures After(before + [s], device) && (matches == 0 ==> !unsafeMatch)
    {
      ghost var all := before + [s];
      if !Matches(s, device) {
        OnlyKeeps(before, s, device);
        return;
      }
      OnlyNew(before, s, device);
      if matches < 2 {
        matches := matches + 1;
      }
      if !Usable(s) {
        unsafeMatch := true;
        return;
      }
      if matches != 1 {
        return;
      }
      candidate := BindingOf(s);
    }

    method Finish(ghost sections: seq<Section>, ghost device: string) returns (result: Lookup)
      requires After(sections, device)
      ensures IsLookup(sections, device, result)
    {
      if matches == 0 {
        return Missing;
      }
      if matches != 1 || unsafeMatch {
        return Ambiguous;
      }
      result := Unique(candidate);
    }
  }

  lemma OnlyKeeps(before: seq<Section>, s: Section, device: string)
    requires !Matches(s, device)
    ensures NoMatch(before + [s], device) <==> NoMatch(before, device)
    ensures forall i :: Only(before + [s], device, i) <==> Only(before, device, i)
    ensures forall i | Only(before, device, i) :: (before + [s])[i] == before[i]
  {
    var all := before + [s];
    assert forall i | 0 <= i < |before| :: all[i] == before[i];
    assert all[|before|] == s;
  }

  lemma OnlyNew(before: seq<Section>, s: Section, device: string)
    requires Matches(s, device)
    ensures !NoMatch(before + [s], device)
    ensures forall i | Only(before + [s], device, i) :: i == |before| && NoMatch(before, device)
    ensures NoMatch(before, device) ==> Only(before + [s], device, |before|)
  {
    var all := before + [s];
    assert forall i | 0 <= i < |before| :: all[i] == before[i];
    assert all[|before|] == s;
  }

  method LookupBinding(sections: seq<Section>, device: string) returns (result: Lookup)
    ensures IsLookup(sections, device, result)
  {
    var scan := new BindingScan();
    var i := 0;
    assert sections[..0] == [];
    while i < |sections|
      invariant i <= |sections| && scan.After(sections[..i], device) && (scan.matches == 0 ==> !scan.unsafeMatch)
    {
      assert sections[..i + 1] == sections[..i] + [sections[i]];
      scan.Consider(sections[i], device, sections[..i]);
      i := i + 1;
    }
    assert sections[..i] == sections;
    result := scan.Finish(sections, device);
  }

  /** The result is determined, whatever the order of the sections. */
  lemma LookupIgnoresOrder(a: seq<Section>, b: seq<Section>, device: string, r: Lookup, t: Lookup)
    requires multiset(a) == multiset(b) && IsLookup(a, device, r) && IsLookup(b, device, t)
    ensures r == t
  {
    SameMatches(a, b, device);
    forall i | Only(a, device, i) ensures exists j :: Only(b, device, j) && b[j] == a[i] {
      OnlyMoves(a, b, device, i);
    }
    forall j | Only(b, device, j) ensures exists i :: Only(a, device, i) && a[i] == b[j] {
      OnlyMoves(b, a, device, j);
    }
  }

  lemma SameMatches(a: seq<Section>, b: seq<Section>, device: string)
    requires multiset(a) == multiset(b)
    ensures NoMatch(a, device) <==> NoMatch(b, device)
  {
    forall s ensures s in a <==> s in b {
      assert s in a <==> s in multiset(a);
      assert s in b <==> s in multiset(b);
    }
    assert NoMatch(a, device) <==> forall s | s in a :: !Matches(s, device);
    assert NoMatch(b, device) <==> forall s | s in b :: !Matches(s, device);
  }

  lemma OnlyMoves(a: seq<Section>, b: seq<Section>, device: string, i: nat)
    requires multiset(a) == multiset(b) && Only(a, device, i)
    ensures exists j :: Only(b, device, j) && b[j] == a[i]
  {
    assert a[i] in multiset(b);
    var j :| 0 <= j < |b| && b[j] == a[i];
    forall k | 0 <= k < |b| && Matches(b[k], device) ensures k == j {
      assert b[k] in multiset(a);
      var m :| 0 <= m < |a| && a[m] == b[k];
      assert m == i;
      if k != j {
        TwiceInMultiset(b, if k < j then k else j, if k < j then j else k);
        TwiceAtPositions(a, a[i]);
      }
    }
  }

  // ----- writing the modes --------------------------------------------------------------------------------

  /** Second lookup, by device and section name: the match counts only if it is the only one. */
  method FindExactSection(sections: seq<Section>, device: string, name: string) returns (found: Option<nat>)
    ensures found.Some? <==> exists i :: Only(sections, device, i) && Usable(sections[i]) && sections[i].name == name
    ensures found.Some? ==> Only(sections, device, found.value) && sections[found.value].name == name
  {
    var matches, i := 0, 0;
    var hit: Option<nat> := None;
    ghost var first := 0;
    while i < |sections|
      invariant i <= |sections|
      invariant matches == 0 <==> forall j | 0 <= j < i :: !Matches(sections[j], device)
      invariant matches == 1 ==> first < i && Matches(sections[first], device)
                                 && forall j | 0 <= j < i && Matches(sections[j], device) :: j == first
      invariant matches > 1 ==> exists j, k | 0 <= j < k < i :: Matches(sections[j], device) && Matches(sections[k], device)
      invariant matches == 0 ==> hit.None?
      invariant matches == 1 ==> hit == if Usable(sections[first]) && sections[first].name == name then Some(first) else None
    {
      if Matches(sections[i], device) {
        if matches == 0 { first := i; }
        matches := matches + 1;
        if Usable(sections[i]) && sections[i].name == name {
          hit := Some(i);
        }
      }
      i := i + 1;
    }
    if matches == 1 {
      assert Only(sections, device, first);
      return hit;
    }
    found := None;
  }

  /** The section with its two mode options set. */
  function WithModes(s: Section, allowed: string, preferred: string): Section {
    s.(options := s.options["allowedmode" := allowed]["preferredmode" := preferred])
  }

  /** Setting modes does not move any match, and reads back as what was written. */
  lemma ModesKeepMatches(sections: seq<Section>, device: string, i: nat, allowed: string, preferred: string)
    requires Only(sections, device, i) && Usable(sections[i]) && ModesValid(allowed, preferred)
    ensures var after := sections[i := WithModes(sections[i], allowed, preferred)];
            && Only(after, device, i) && Usable(after[i]) && after[i].name == sections[i].name
            && BindingOf(after[i]) == BindingOf(sections[i]).(allowed := Some(allowed), preferred := Some(preferred))
            && (forall key | key != "allowedmode" && key != "preferredmode" :: Opt(after[i], key) == Opt(sections[i], key))
  {
    ValidModesAreSafe(allowed, preferred);
    var s, t := sections[i], WithModes(sections[i], allowed, preferred);
    assert Opt(t, "allowedmode") == Some(allowed) && Opt(t, "preferredmode") == Some(preferred);
    assert Opt(t, "proto") == Opt(s, "proto") && Opt(t, "device") == Opt(s, "device");
    assert Opt(t, "disable_modem") == Opt(s, "disable_modem");
  }

  datatype Update = Error | NoSection | Done | Unclear | Invalid | VerifyFailed

  predicate Acceptable(device: string, allowed: string, preferred: string) {
    device != "" && |device| <= DEVICE_MAX && ModesValid(allowed, preferred)
  }

  ghost predicate OneUsable(sections: seq<Section>, device: string) {
    exists i :: Only(sections, device, i) && Usable(sections[i])
  }

  /** The configuration store. Its two fallible calls, setting an option and committing, are
      answered by the environment; a failed commit is taken to leave the store alone. */
  class NetworkConfig {
    var sections: seq<Section>

    /** Resolve the section twice, set both options, commit once and read back. On success
        exactly the two options of the one matching section change; otherwise nothing does. */
    method UpdateModes(device: string, allowed: string, preferred: string, setsSucceed: bool, commitSucceeds: bool)
      returns (result: Update, binding: Binding)
      modifies this
      ensures result == Invalid <==> !Acceptable(device, allowed, preferred)
      ensures result == NoSection <==> Acceptable(device, allowed, preferred) && NoMatch(old(sections), device)
      ensures result == Unclear <==>
              Acceptable(device, allowed, preferred) && !NoMatch(old(sections), device) && !OneUsable(old(sections), device)
      ensures result == Error <==>
              Acceptable(device, allowed, preferred) && OneUsable(old(sections), device) && !setsSucceed
      ensures result == VerifyFailed <==>
              Acceptable(device, allowed, preferred) && OneUsable(old(sections), device) && setsSucceed && !commitSucceeds
      ensures result == Done <==>
              Acceptable(device, allowed, preferred) && OneUsable(old(sections), device) && setsSucceed && commitSucceeds
      ensures result != Done ==> sections == old(sections) && binding == NOTHING
      ensures result == Done ==> Written(old(sections), sections, device, allowed, preferred, binding)
    {
      binding := NOTHING;
      if !Acceptable(device, allowed, preferred) {
        return Invalid, binding;
      }
      var lookup := LookupBinding(sections, device);
      if lookup.Missing? {
        return NoSection, binding;
      }
      if lookup.Ambiguous? {
        return Unclear, binding;
      }
      var target := FindExactSection(sections, device, lookup.binding.section);
      if target.None? {
        return Unclear, binding;
      }
      var i := target.value;
      if !setsSucceed {
        return Error, binding;
      }
      if !commitSucceeds {
        return VerifyFailed, binding;
      }
      ModesKeepMatches(sections, device, i, allowed, preferred);
      sections := sections[i := WithModes(sections[i], allowed, preferred)];
      var again := FindExactSection(sections, device, lookup.binding.section);
      if again.None? || Opt(sections[again.value], "allowedmode") != Some(allowed)
         || Opt(sections[again.value], "preferredmode") != Some(preferred)
      {
        assert false;
      }
      result, binding := Done, lookup.binding.(allowed := Some(allowed), preferred := Some(preferred));
    }
  }

  /** The store after a successful update, and the binding it reports. */
  ghost predicate Written(before: seq<Section>, after: seq<Section>, device: string, allowed: string, preferred: string, binding: Binding) {
    exists i ::
      && Only(before, device, i) && Usable(before[i])
      && after == before[i := WithModes(before[i], allowed, preferred)]
      && binding == BindingOf(before[i]).(allowed := Some(allowed), preferred := Some(preferred))
  }

  /** A lookup after a successful update finds the same section with exactly the modes that
      were written, and every other section and option is as it was. */
  lemma LookupAfterUpdate(before: seq<Section>, after: seq<Section>, device: string, allowed: string, preferred: string,
                          binding: Binding, result: Lookup)
    requires ModesValid(allowed, preferred) && Written(before, after, device, allowed, preferred, binding)
    requires IsLookup(after, device, result)
    ensures result == Unique(binding) && binding.allowed == Some(allowed) && binding.preferred == Some(preferred)
    ensures |after| == |before|
    ensures forall k, key | 0 <= k < |before| && (Matches(before[k], device) ==> key != "allowedmode" && key != "preferredmode") ::
              after[k].name == before[k].name && after[k].kind == before[k].kind && after[k].anonymous == before[k].anonymous
              && Opt(after[k], key) == Opt(before[k], key)
  {
    var i :| Only(before, device, i) && Usable(before[i])
             && after == before[i := WithModes(before[i], allowed, preferred)]
             && binding == BindingOf(before[i]).(allowed := Some(allowed), preferred := Some(preferred));
    ModesKeepMatches(before, device, i, allowed, preferred);
  }
}
