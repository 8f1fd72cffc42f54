/**
 Fields that are generated together, and field pushdown. Pruning a type to the fields a query
 uses keeps whole units, with the same specs in the same order, so a unit's cache key does not
 depend on which query asked.
 */
module GenerationUnits {
  import opened Wrappers

  datatype FieldSpec = FieldSpec(name: string, ty: string, doc: string)

  datatype SemanticType = SemanticType(name: string, version: string, fields: seq<FieldSpec>, together: seq<seq<string>>)

  /** No two fields share a name. */
  ghost predicate UniqueNames(fields: seq<FieldSpec>) {
    forall i, j :: 0 <= i < j < |fields| ==> fields[i].name != fields[j].name
  }

  /** No field is in two groups. */
  ghost predicate DisjointGroups(together: seq<seq<string>>) {
    forall i, j, m :: 0 <= i < j < |together| && m in together[i] ==> m !in together[j]
  }

  ghost predicate WellFormed(t: SemanticType) {
    UniqueNames(t.fields) && DisjointGroups(t.together)
  }

  /** Generated in one call: the same field, or members of one group. */
  predicate Together(together: seq<seq<string>>, a: string, b: string) {
    a == b || exists k :: 0 <= k < |together| && a in together[k] && b in together[k]
  }

  lemma TogetherIsEquivalence(together: seq<seq<string>>, a: string, b: string, c: string)
    requires DisjointGroups(together)
    ensures Together(together, a, b) ==> Together(together, b, a)
    ensures Together(together, a, b) && Together(together, b, c) ==> Together(together, a, c)
  {
    if Together(together, a, b) && Together(together, b, c) && a != b && b != c {
      var i :| 0 <= i < |together| && a in together[i] && b in together[i];
      var j :| 0 <= j < |together| && b in together[j] && c in together[j];
      assert i == j;
    }
  }

  // ---- units ----

  /** The fields generated with `name`, in declaration order. */
  function UnitOf(fields: seq<FieldSpec>, together: seq<seq<string>>, name: string): (u: seq<FieldSpec>)
    ensures forall f :: f in u <==> f in fields && Together(together, name, f.name)
  {
    if fields == [] then []
    else
      var n := |fields| - 1;
      assert fields == fields[..n] + [fields[n]];
      UnitOf(fields[..n], together, name) + if Together(together, name, fields[n].name) then [fields[n]] else []
  }

  /** Some earlier field is generated with it. */
  predicate Seen(before: seq<FieldSpec>, together: seq<seq<string>>, name: string) {
    exists i :: 0 <= i < |before| && Together(together, before[i].name, name)
  }

  /** The units that fields of a prefix lead, over all the fields. */
  function Units(prefix: seq<FieldSpec>, fields: seq<FieldSpec>, together: seq<seq<string>>): seq<seq<FieldSpec>> {
    if prefix == [] then []
    else
      var n := |prefix| - 1;
      Units(prefix[..n], fields, together)
      + if Seen(prefix[..n], together, prefix[n].name) then [] else [UnitOf(fields, together, prefix[n].name)]
  }

  function UnitsOf(t: SemanticType): seq<seq<FieldSpec>> {
    Units(t.fields, t.fields, t.together)
  }

  function GroupOf(together: seq<seq<string>>, name: string): (g: Option<seq<string>>)
    ensures g.None? ==> forall k :: 0 <= k < |together| ==> name !in together[k]
    ensures g.Some? ==> exists k :: 0 <= k < |together| && together[k] == g.value && name in together[k]
  {
    if together == [] then None
    else if name in together[0] then Some(together[0])
    else
      var rest := together[1..];
      assert forall k :: 0 <= k < |rest| ==> rest[k] == together[k + 1];
      assert together == [together[0]] + rest;
      GroupOf(rest, name)
  }

  function Members(fields: seq<FieldSpec>, group: seq<string>): seq<FieldSpec> {
    if fields == [] then []
    else Members(fields[..|fields| - 1], group) + if fields[|fields| - 1].name in group then [fields[|fields| - 1]] else []
  }

  lemma GroupIsTogether(together: seq<seq<string>>, name: string, other: string)
    requires DisjointGroups(together)
    ensures var g := GroupOf(together, name);
      Together(together, name, other) <==> if g.Some? then other in g.value else other == name
  {
    var g := GroupOf(together, name);
    if g.Some? {
      var k :| 0 <= k < |together| && together[k] == g.value && name in together[k];
      if i :| 0 <= i < |together| && name in together[i] && other in together[i] {
        assert i == k;
      }
    }
  }

  lemma {:induction false} MembersAreUnit(fields: seq<FieldSpec>, together: seq<seq<string>>, name: string)
    requires DisjointGroups(together) && GroupOf(together, name).Some?
    ensures Members(fields, GroupOf(together, name).value) == UnitOf(fields, together, name)
  {
    if fields != [] {
      var n := |fields| - 1;
      MembersAreUnit(fields[..n], together, name);
      GroupIsTogether(together, name, fields[n].name);
    }
  }

  lemma {:induction false} NoUnit(fields: seq<FieldSpec>, together: seq<seq<string>>, name: string)
    requires DisjointGroups(together) && GroupOf(together, name).None? && forall i :: 0 <= i < |fields| ==> fields[i].name != name
    ensures UnitOf(fields, together, name) == []
  {
    if fields != [] {
      GroupIsTogether(together, name, fields[|fields| - 1].name);
      NoUnit(fields[..|fields| - 1], together, name);
    }
  }

  /** An ungrouped field is a unit of its own. */
  lemma {:induction false} LoneUnit(fields: seq<FieldSpec>, together: seq<seq<string>>, i: nat)
    requires UniqueNames(fields) && DisjointGroups(together) && i < |fields| && GroupOf(together, fields[i].name).None?
    ensures UnitOf(fields, together, fields[i].name) == [fields[i]]
  {
    hide Together;
    var n := |fields| - 1;
    GroupIsTogether(together, fields[i].name, fields[n].name);
    if i < n {
      LoneUnit(fields[..n], together, i);
    } else {
      NoUnit(fields[..n], together, fields[n].name);
    }
  }

  /** The names already generated with an earlier field. */
  ghost predicate SeenNames(t: SemanticType, n: nat, seen: set<string>)
    requires n <= |t.fields|
  {
    forall i :: 0 <= i < |t.fields| ==> (t.fields[i].name in seen <==> Seen(t.fields[..n], t.together, t.fields[i].name))
  }

  lemma OneMoreSeen(fields: seq<FieldSpec>, together: seq<seq<string>>, n: nat, name: string)
    requires n < |fields|
    ensures Seen(fields[..n + 1], together, name) <==> Seen(fields[..n], together, name) || Together(together, fields[n].name, name)
  {
    var later := fields[..n + 1];
    if i :| 0 <= i < |later| && Together(together, later[i].name, name) {
      assert i < n ==> fields[..n][i] == later[i];
    }
    if i :| 0 <= i < n && Together(together, fields[..n][i].name, name) {
      assert later[i] == fields[..n][i];
    }
    assert later[n] == fields[n];
  }

  /** A skipped field adds nothing: what it is generated with has been seen. */
  lemma SkipSeen(t: SemanticType, n: nat, seen: set<string>)
    requires WellFormed(t) && n < |t.fields| && SeenNames(t, n, seen) && t.fields[n].name in seen
    ensures SeenNames(t, n + 1, seen)
  {
    var j :| 0 <= j < n && Together(t.together, t.fields[..n][j].name, t.fields[n].name);
    forall i | 0 <= i < |t.fields|
      ensures t.fields[i].name in seen <==> Seen(t.fields[..n + 1], t.together, t.fields[i].name)
    {
      OneMoreSeen(t.fields, t.together, n, t.fields[i].name);
      TogetherIsEquivalence(t.together, t.fields[..n][j].name, t.fields[n].name, t.fields[i].name);
    }
  }

  lemma AddSeen(t: SemanticType, n: nat, seen: set<string>, unit: seq<FieldSpec>)
    requires WellFormed(t) && n < |t.fields| && SeenNames(t, n, seen)
    requires unit == UnitOf(t.fields, t.together, t.fields[n].name)
    ensures SeenNames(t, n + 1, seen + set f | f in unit :: f.name)
  {
    forall i | 0 <= i < |t.fields|
      ensures t.fields[i].name in seen + (set f | f in unit :: f.name) <==> Seen(t.fields[..n + 1], t.together, t.fields[i].name)
    {
      OneMoreSeen(t.fields, t.together, n, t.fields[i].name);
      assert t.fields[i] in unit <==> Together(t.together, t.fields[n].name, t.fields[i].name);
    }
  }

  lemma UnitsGrow(t: SemanticType, n: nat)
    requires n < |t.fields|
    ensures
      var f, units := t.fields[n], Units(t.fields[..n], t.fields, t.together);
      Units(t.fields[..n + 1], t.fields, t.together)
      == units + if Seen(t.fields[..n], t.together, f.name) then [] else [UnitOf(t.fields, t.together, f.name)]
  {
    assert t.fields[..n + 1][..n] == t.fields[..n];
  }

  /** What the next field does: nothing if it has been seen, else it leads a unit. */
  lemma NextField(t: SemanticType, n: nat, seen: set<string>)
    requires WellFormed(t) && n < |t.fields| && SeenNames(t, n, seen)
    ensures
      var f, units := t.fields[n], Units(t.fields[..n], t.fields, t.together);
      var more, unit := Units(t.fields[..n + 1], t.fields, t.together), UnitOf(t.fields, t.together, f.name);
      if f.name in seen then SeenNames(t, n + 1, seen) && more == units
      else SeenNames(t, n + 1, seen + set g | g in unit :: g.name) && more == units + [unit]
  {
    UnitsGrow(t, n);
    assert t.fields[n].name in seen <==> Seen(t.fields[..n], t.together, t.fields[n].name);
    hide SeenNames, UnitOf, Units, WellFormed, Seen;
    if t.fields[n].name in seen {
      SkipSeen(t, n, seen);
    } else {
      AddSeen(t, n, seen, UnitOf(t.fields, t.together, t.fields[n].name));
    }
  }

  method ComputeUnits(t: SemanticType) returns (units: seq<seq<FieldSpec>>)
    requires WellFormed(t)
    ensures units == UnitsOf(t)
  {
    units := [];
    var seen: set<string> := {};
    assert SeenNames(t, 0, seen);
    hide SeenNames, UnitOf, Units, Members;
    for n := 0 to |t.fields|
      invariant units == Units(t.fields[..n], t.fields, t.together)
      invariant SeenNames(t, n, seen)
    {
      NextField(t, n, seen);
      if t.fields[n].name in seen {
        continue;
      }
      var group := GroupOf(t.together, t.fields[n].name);
      var unit;
      if group.Some? {
        unit := Members(t.fields, group.value);
        MembersAreUnit(t.fields, t.together, t.fields[n].name);
      } else {
        unit := [t.fields[n]];
        LoneUnit(t.fields, t.together, n);
      }
      seen := seen + set f | f in unit :: f.name;
      units := units + [unit];
    }
    assert t.fields[..|t.fields|] == t.fields;
  }

  // ---- units partition the fields ----

  lemma {:induction false} UnitsAreLed(prefix: seq<FieldSpec>, fields: seq<FieldSpec>, together: seq<seq<string>>, u: nat)
    returns (leader: nat)
    requires u < |Units(prefix, fields, together)|
    ensures leader < |prefix| && Units(prefix, fields, together)[u] == UnitOf(fields, together, prefix[leader].name)
    ensures !Seen(prefix[..leader], together, prefix[leader].name)
  {
    var n := |prefix| - 1;
    var earlier := Units(prefix[..n], fields, together);
    if u < |earlier| {
      leader := UnitsAreLed(prefix[..n], fields, together, u);
      assert prefix[..n][..leader] == prefix[..leader];
    } else {
      leader := n;
    }
  }

  ghost predicate Covered(units: seq<seq<FieldSpec>>, f: FieldSpec) {
    exists u :: 0 <= u < |units| && f in units[u]
  }

  lemma CoveredLater(units: seq<seq<FieldSpec>>, more: seq<seq<FieldSpec>>, f: FieldSpec)
    requires Covered(units, f)
    ensures Covered(units + more, f)
  {
    var u :| 0 <= u < |units| && f in units[u];
    assert (units + more)[u] == units[u];
  }

  lemma SeenTogether(before: seq<FieldSpec>, together: seq<seq<string>>, a: string, b: string)
    requires DisjointGroups(together) && Seen(before, together, b)
    ensures Together(together, a, b) ==> Seen(before, together, a)
  {
    var i :| 0 <= i < |before| && Together(together, before[i].name, b);
    TogetherIsEquivalence(together, a, b, a);
    TogetherIsEquivalence(together, before[i].name, b, a);
  }

  /** A field generated with one of the prefix is in a unit the prefix leads. */
  lemma {:induction false} SeenFieldIsCovered(prefix: seq<FieldSpec>, fields: seq<FieldSpec>, together: seq<seq<string>>, f: FieldSpec)
    requires DisjointGroups(together) && f in fields && Seen(prefix, together, f.name)
    ensures Covered(Units(prefix, fields, together), f)
  {
    var n := |prefix| - 1;
    var earlier := Units(prefix[..n], fields, together);
    OneMoreSeen(prefix, together, n, f.name);
    assert prefix[..n + 1] == prefix;
    if Seen(prefix[..n], together, f.name) {
      SeenFieldIsCovered(prefix[..n], fields, together, f);
      CoveredLater(earlier, if Seen(prefix[..n], together, prefix[n].name) then [] else [UnitOf(fields, together, prefix[n].name)], f);
    } else {
      TogetherIsEquivalence(together, prefix[n].name, f.name, f.name);
      if Seen(prefix[..n], together, prefix[n].name) {
        SeenTogether(prefix[..n], together, f.name, prefix[n].name);
        assert false;
      }
      var all := Units(prefix, fields, together);
      assert all[|all| - 1] == UnitOf(fields, together, prefix[n].name);
    }
  }

  /** Everything in a unit of the prefix is generated with some field of the prefix. */
  lemma {:induction false} UnitsAreSeen(prefix: seq<FieldSpec>, fields: seq<FieldSpec>, together: seq<seq<string>>, u: nat, f: FieldSpec)
    requires u < |Units(prefix, fields, together)| && f in Units(prefix, fields, together)[u]
    ensures f in fields && Seen(prefix, together, f.name)
  {
    var leader := UnitsAreLed(prefix, fields, together, u);
    assert Together(together, prefix[leader].name, f.name);
  }

  lemma {:induction false} UnitsAreApart(
    prefix: seq<FieldSpec>, fields: seq<FieldSpec>, together: seq<seq<string>>, u: nat, v: nat, f: FieldSpec)
    requires DisjointGroups(together) && u < v < |Units(prefix, fields, together)|
    requires f in Units(prefix, fields, together)[u]
    ensures f !in Units(prefix, fields, together)[v]
  {
    var n := |prefix| - 1;
    var earlier, all := Units(prefix[..n], fields, together), Units(prefix, fields, together);
    assert all[u] == earlier[u];
    if v < |earlier| {
      UnitsAreApart(prefix[..n], fields, together, u, v, f);
      assert all[v] == earlier[v];
    } else {
      UnitsAreSeen(prefix[..n], fields, together, u, f);
      SeenTogether(prefix[..n], together, prefix[n].name, f.name);
    }
  }

  /** Every field is in exactly one unit, and units hold nothing else. */
  lemma UnitsPartition(t: SemanticType)
    requires WellFormed(t)
    ensures forall f :: f in t.fields <==> Covered(UnitsOf(t), f)
    ensures forall u, v, f :: 0 <= u < v < |UnitsOf(t)| && f in UnitsOf(t)[u] ==> f !in UnitsOf(t)[v]
  {
    forall f ensures f in t.fields <==> Covered(UnitsOf(t), f) {
      if f in t.fields {
        assert Together(t.together, f.name, f.name);
        assert Seen(t.fields, t.together, f.name);
        SeenFieldIsCovered(t.fields, t.fields, t.together, f);
      }
      if u :| 0 <= u < |UnitsOf(t)| && f in UnitsOf(t)[u] {
        UnitsAreSeen(t.fields, t.fields, t.together, u, f);
      }
    }
    forall u, v, f | 0 <= u < v < |UnitsOf(t)| && f in UnitsOf(t)[u] ensures f !in UnitsOf(t)[v] {
      UnitsAreApart(t.fields, t.fields, t.together, u, v, f);
    }
  }

  // ---- which fields share a unit, and in what order ----

  ghost predicate InUnitTogether(units: seq<seq<FieldSpec>>, f: FieldSpec, g: FieldSpec) {
    exists u :: 0 <= u < |units| && f in units[u] && g in units[u]
  }

  /** Two fields are generated in one call exactly when they are the same or declared together. */
  lemma UnitsAreGroups(t: SemanticType, f: FieldSpec, g: FieldSpec)
    requires WellFormed(t) && f in t.fields && g in t.fields
    ensures InUnitTogether(UnitsOf(t), f, g) <==> Together(t.together, f.name, g.name)
  {
    if u :| 0 <= u < |UnitsOf(t)| && f in UnitsOf(t)[u] && g in UnitsOf(t)[u] {
      var leader := UnitsAreLed(t.fields, t.fields, t.together, u);
      TogetherIsEquivalence(t.together, t.fields[leader].name, f.name, f.name);
      TogetherIsEquivalence(t.together, f.name, t.fields[leader].name, g.name);
    }
    if Together(t.together, f.name, g.name) {
      UnitsPartition(t);
      var u :| 0 <= u < |UnitsOf(t)| && f in UnitsOf(t)[u];
      var leader := UnitsAreLed(t.fields, t.fields, t.together, u);
      TogetherIsEquivalence(t.together, t.fields[leader].name, f.name, g.name);
      assert g in UnitsOf(t)[u];
    }
  }

  ghost predicate BeforeAt(fields: seq<FieldSpec>, i: int, j: int, f: FieldSpec, g: FieldSpec) {
    0 <= i < j < |fields| && fields[i] == f && fields[j] == g
  }

  ghost predicate Before(fields: seq<FieldSpec>, f: FieldSpec, g: FieldSpec) {
    exists i, j :: BeforeAt(fields, i, j, f, g)
  }

  lemma {:induction false} UnitIsInOrder(fields: seq<FieldSpec>, together: seq<seq<string>>, name: string, i: nat, j: nat)
    requires i < j < |UnitOf(fields, together, name)|
    ensures Before(fields, UnitOf(fields, together, name)[i], UnitOf(fields, together, name)[j])
  {
    var n := |fields| - 1;
    var earlier, unit := UnitOf(fields[..n], together, name), UnitOf(fields, together, name);
    if j < |earlier| {
      UnitIsInOrder(fields[..n], together, name, i, j);
      var k, l :| BeforeAt(fields[..n], k, l, unit[i], unit[j]);
      assert BeforeAt(fields, k, l, unit[i], unit[j]);
    } else {
      assert unit[i] == earlier[i] && earlier[i] in earlier && earlier[i] in fields[..n];
      var k :| 0 <= k < n && fields[..n][k] == earlier[i];
      assert BeforeAt(fields, k, n, unit[i], unit[j]);
    }
  }

  lemma {:induction false} NothingBeforeLeader(before: seq<FieldSpec>, together: seq<seq<string>>, name: string)
    requires DisjointGroups(together) && !Seen(before, together, name)
    ensures UnitOf(before, together, name) == []
  {
    if before != [] {
      var n := |before| - 1;
      OneMoreSeen(before, together, n, name);
      assert before[..n + 1] == before;
      NothingBeforeLeader(before[..n], together, name);
      TogetherIsEquivalence(together, name, before[n].name, name);
    }
  }

  /** A unit starts with the field that leads it. */
  lemma {:induction false} LeaderIsFirst(fields: seq<FieldSpec>, together: seq<seq<string>>, n: nat, leader: nat)
    requires leader < n <= |fields| && DisjointGroups(together)
    requires !Seen(fields[..leader], together, fields[leader].name)
    ensures
      var unit := UnitOf(fields[..n], together, fields[leader].name);
      unit != [] && unit[0] == fields[leader]
  {
    assert fields[..n][..n - 1] == fields[..n - 1];
    if leader < n - 1 {
      LeaderIsFirst(fields, together, n - 1, leader);
    } else {
      NothingBeforeLeader(fields[..leader], together, fields[leader].name);
    }
  }

  lemma {:induction false} LeadersAscend(prefix: seq<FieldSpec>, fields: seq<FieldSpec>, together: seq<seq<string>>, u: nat, v: nat)
    returns (first: nat, second: nat)
    requires u < v < |Units(prefix, fields, together)|
    ensures first < second < |prefix|
    ensures Units(prefix, fields, together)[u] == UnitOf(fields, together, prefix[first].name)
    ensures Units(prefix, fields, together)[v] == UnitOf(fields, together, prefix[second].name)
    ensures !Seen(prefix[..first], together, prefix[first].name) && !Seen(prefix[..second], together, prefix[second].name)
  {
    var n := |prefix| - 1;
    var earlier := Units(prefix[..n], fields, together);
    if v < |earlier| {
      first, second := LeadersAscend(prefix[..n], fields, together, u, v);
      assert prefix[..n][..first] == prefix[..first] && prefix[..n][..second] == prefix[..second];
    } else {
      first := UnitsAreLed(prefix[..n], fields, together, u);
      second := n;
      assert prefix[..n][..first] == prefix[..first];
    }
  }

  /** Units, and the fields within each, are in declaration order; a unit counts from its first field. */
  lemma UnitsAreInOrder(t: SemanticType)
    requires WellFormed(t)
    ensures forall u :: 0 <= u < |UnitsOf(t)| ==> UnitsOf(t)[u] != []
    ensures forall u, i, j :: 0 <= u < |UnitsOf(t)| && 0 <= i < j < |UnitsOf(t)[u]| ==>
      Before(t.fields, UnitsOf(t)[u][i], UnitsOf(t)[u][j])
    ensures forall u, v :: 0 <= u < v < |UnitsOf(t)| ==> Before(t.fields, UnitsOf(t)[u][0], UnitsOf(t)[v][0])
  {
    var fields, units := t.fields, UnitsOf(t);
    assert fields[..|fields|] == fields;
    forall u | 0 <= u < |units| ensures units[u] != [] {
      var leader := UnitsAreLed(fields, fields, t.together, u);
      LeaderIsFirst(fields, t.together, |fields|, leader);
    }
    forall u, i, j | 0 <= u < |units| && 0 <= i < j < |units[u]| ensures Before(fields, units[u][i], units[u][j]) {
      var leader := UnitsAreLed(fields, fields, t.together, u);
      UnitIsInOrder(fields, t.together, fields[leader].name, i, j);
    }
    forall u, v | 0 <= u < v < |units| ensures Before(fields, units[u][0], units[v][0]) {
      var first, second := LeadersAscend(fields, fields, t.together, u, v);
      LeaderIsFirst(fields, t.together, |fields|, first);
      LeaderIsFirst(fields, t.together, |fields|, second);
      assert BeforeAt(fields, first, second, units[u][0], units[v][0]);
    }
  }

  // ---- field pushdown ----

  /** A name the query uses, or one generated with such a name. */
  predicate Reached(together: seq<seq<string>>, wanted: seq<string>, name: string) {
    exists i :: 0 <= i < |wanted| && Together(together, wanted[i], name)
  }

  function KeptFields(fields: seq<FieldSpec>, together: seq<seq<string>>, wanted: seq<string>): (kept: seq<FieldSpec>)
    ensures forall f :: f in kept <==> f in fields && Reached(together, wanted, f.name)
  {
    if fields == [] then []
    else
      var n := |fields| - 1;
      assert fields == fields[..n] + [fields[n]];
      KeptFields(fields[..n], together, wanted) + if Reached(together, wanted, fields[n].name) then [fields[n]] else []
  }

  /** Some member of the group is kept. */
  predicate GroupReached(together: seq<seq<string>>, wanted: seq<string>, group: seq<string>) {
    exists i :: 0 <= i < |group| && Reached(together, wanted, group[i])
  }

  function KeptGroups(groups: seq<seq<string>>, together: seq<seq<string>>, wanted: seq<string>): (kept: seq<seq<string>>)
    ensures forall g :: g in kept <==> g in groups && GroupReached(together, wanted, g)
  {
    if groups == [] then []
    else
      var n := |groups| - 1;
      assert groups == groups[..n] + [groups[n]];
      KeptGroups(groups[..n], together, wanted) + if GroupReached(together, wanted, groups[n]) then [groups[n]] else []
  }

  predicate HasField(fields: seq<FieldSpec>, name: string) {
    exists i :: 0 <= i < |fields| && fields[i].name == name
  }

  predicate Known(fields: seq<FieldSpec>, wanted: seq<string>) {
    forall i :: 0 <= i < |wanted| ==> HasField(fields, wanted[i])
  }

  /** The type with only the units the query can reach. */
  function PrunedType(t: SemanticType, wanted: seq<string>): SemanticType {
    t.(fields := KeptFields(t.fields, t.together, wanted), together := KeptGroups(t.together, t.together, wanted))
  }

  ghost predicate PulledIn(groups: seq<seq<string>>, wanted: seq<string>, name: string) {
    exists k, i :: 0 <= k < |groups| && 0 <= i < |wanted| && wanted[i] in groups[k] && name in groups[k]
  }

  /** Groups of the type that any wanted name is in pull in all their members. */
  ghost predicate KeepsSoFar(t: SemanticType, wanted: seq<string>, n: nat, keep: set<string>)
    requires n <= |t.together|
  {
    forall x :: x in keep <==> x in wanted || PulledIn(t.together[..n], wanted, x)
  }

  predicate AnyIn(group: seq<string>, keep: set<string>) {
    exists i :: 0 <= i < |group| && group[i] in keep
  }

  lemma OneMorePulled(groups: seq<seq<string>>, group: seq<string>, wanted: seq<string>, name: string)
    ensures PulledIn(groups + [group], wanted, name) <==>
            PulledIn(groups, wanted, name) || (name in group && exists i :: 0 <= i < |wanted| && wanted[i] in group)
  {
    var more := groups + [group];
    if k, i :| 0 <= k < |more| && 0 <= i < |wanted| && wanted[i] in more[k] && name in more[k] {
      assert k < |groups| ==> groups[k] == more[k];
    }
    if k, i :| 0 <= k < |groups| && 0 <= i < |wanted| && wanted[i] in groups[k] && name in groups[k] {
      assert more[k] == groups[k];
    }
    assert more[|groups|] == group;
  }

  lemma NoEarlierGroup(t: SemanticType, wanted: seq<string>, k: nat, name: string)
    requires WellFormed(t) && k < |t.together| && name in t.together[k]
    ensures !PulledIn(t.together[..k], wanted, name)
  {
    var earlier := t.together[..k];
    assert forall j :: 0 <= j < k ==> earlier[j] == t.together[j] && name !in earlier[j];
  }

  /** A group has a kept member exactly when it has a wanted one: no earlier group reaches it. */
  lemma GroupDecides(t: SemanticType, wanted: seq<string>, k: nat, keep: set<string>)
    requires WellFormed(t) && k < |t.together| && KeepsSoFar(t, wanted, k, keep)
    ensures KeepsSoFar(t, wanted, k + 1, if AnyIn(t.together[k], keep) then keep + set m | m in t.together[k] else keep)
  {
    var group := t.together[k];
    assert t.together[..k + 1] == t.together[..k] + [group];
    assert AnyIn(group, keep) <==> exists i :: 0 <= i < |wanted| && wanted[i] in group by {
      if i :| 0 <= i < |group| && group[i] in keep {
        NoEarlierGroup(t, wanted, k, group[i]);
      }
      if i :| 0 <= i < |wanted| && wanted[i] in group {
        var j :| 0 <= j < |group| && group[j] == wanted[i];
        assert wanted[i] in wanted && group[j] in keep;
      }
    }
    forall x ensures PulledIn(t.together[..k + 1], wanted, x) <==>
      PulledIn(t.together[..k], wanted, x) || (x in group && exists i :: 0 <= i < |wanted| && wanted[i] in group)
    {
      OneMorePulled(t.together[..k], group, wanted, x);
    }
  }

  method CloseOverGroups(t: SemanticType, wanted: seq<string>, named: set<string>) returns (keep: set<string>)
    requires WellFormed(t) && forall x :: x in named <==> x in wanted
    ensures KeepsSoFar(t, wanted, |t.together|, keep)
  {
    keep := named;
    for k := 0 to |t.together|
      invariant KeepsSoFar(t, wanted, k, keep)
    {
      GroupDecides(t, wanted, k, keep);
      if AnyIn(t.together[k], keep) {
        keep := keep + set m | m in t.together[k];
      }
    }
  }

  lemma KeepIsReached(t: SemanticType, wanted: seq<string>, keep: set<string>)
    requires KeepsSoFar(t, wanted, |t.together|, keep)
    ensures forall x :: x in keep <==> Reached(t.together, wanted, x)
  {
    assert t.together[..|t.together|] == t.together;
    forall x ensures x in keep <==> Reached(t.together, wanted, x) {
      if x in wanted {
        var i :| 0 <= i < |wanted| && wanted[i] == x;
        assert Together(t.together, wanted[i], x);
      }
      if PulledIn(t.together, wanted, x) {
        var k, i :| 0 <= k < |t.together| && 0 <= i < |wanted| && wanted[i] in t.together[k] && x in t.together[k];
        assert Together(t.together, wanted[i], x);
      }
    }
  }

  method FilterFields(fields: seq<FieldSpec>, together: seq<seq<string>>, wanted: seq<string>, keep: set<string>) returns (kept: seq<FieldSpec>)
    requires forall x :: x in keep <==> Reached(together, wanted, x)
    ensures kept == KeptFields(fields, together, wanted)
  {
    kept := [];
    for i := 0 to |fields|
      invariant kept == KeptFields(fields[..i], together, wanted)
    {
      assert fields[..i + 1][..i] == fields[..i];
      if fields[i].name in keep {
        kept := kept + [fields[i]];
      }
    }
    assert fields[..|fields|] == fields;
  }

  method FilterGroups(groups: seq<seq<string>>, together: seq<seq<string>>, wanted: seq<string>, keep: set<string>) returns (kept: seq<seq<string>>)
    requires forall x :: x in keep <==> Reached(together, wanted, x)
    ensures kept == KeptGroups(groups, together, wanted)
  {
    kept := [];
    for i := 0 to |groups|
      invariant kept == KeptGroups(groups[..i], together, wanted)
    {
      assert groups[..i + 1][..i] == groups[..i];
      assert AnyIn(groups[i], keep) <==> GroupReached(together, wanted, groups[i]);
      if AnyIn(groups[i], keep) {
        kept := kept + [groups[i]];
      }
    }
    assert groups[..|groups|] == groups;
  }

  method Pruned(t: SemanticType, wanted: seq<string>) returns (r: Result<SemanticType, string>)
    requires WellFormed(t)
    ensures r.Ok? <==> Known(t.fields, wanted)
    ensures r.Ok? ==> r.value == PrunedType(t, wanted)
  {
    var keep: set<string> := {};
    for i := 0 to |wanted|
      invariant Known(t.fields, wanted[..i])
      invariant forall x :: x in keep <==> x in wanted[..i]
    {
      if !HasField(t.fields, wanted[i]) {
        return Err("semantic type " + t.name + " has no field " + wanted[i]);
      }
      keep := keep + {wanted[i]};
      assert wanted[..i + 1] == wanted[..i] + [wanted[i]];
    }
    assert wanted[..|wanted|] == wanted;
    keep := CloseOverGroups(t, wanted, keep);
    KeepIsReached(t, wanted, keep);
    var fields := FilterFields(t.fields, t.together, wanted, keep);
    var together := FilterGroups(t.together, t.together, wanted, keep);
    r := Ok(SemanticType(t.name, t.version, fields, together));
  }

  // ---- pruning keeps whole units ----

  /** Names that are reached are generated together in the pruned type exactly as before. */
  lemma SameTogether(t: SemanticType, wanted: seq<string>, a: string, b: string)
    requires Reached(t.together, wanted, a)
    ensures Together(KeptGroups(t.together, t.together, wanted), a, b) <==> Together(t.together, a, b)
  {
    var kept := KeptGroups(t.together, t.together, wanted);
    if k :| 0 <= k < |t.together| && a in t.together[k] && b in t.together[k] {
      var i :| 0 <= i < |t.together[k]| && t.together[k][i] == a;
      assert GroupReached(t.together, wanted, t.together[k]) && t.together[k] in t.together;
      assert t.together[k] in kept;
      var j :| 0 <= j < |kept| && kept[j] == t.together[k];
    }
    if k :| 0 <= k < |kept| && a in kept[k] && b in kept[k] {
      assert kept[k] in kept && kept[k] in t.together;
      var j :| 0 <= j < |t.together| && t.together[j] == kept[k];
    }
  }

  lemma ReachedTogether(together: seq<seq<string>>, wanted: seq<string>, a: string, b: string)
    requires DisjointGroups(together) && Reached(together, wanted, a) && Together(together, a, b)
    ensures Reached(together, wanted, b)
  {
    var i :| 0 <= i < |wanted| && Together(together, wanted[i], a);
    TogetherIsEquivalence(together, wanted[i], a, b);
  }

  /** A reached field's unit is the same over the kept fields and groups. */
  lemma {:induction false} SameUnit(t: SemanticType, wanted: seq<string>, fields: seq<FieldSpec>, name: string)
    requires WellFormed(t) && Reached(t.together, wanted, name)
    ensures UnitOf(KeptFields(fields, t.together, wanted), KeptGroups(t.together, t.together, wanted), name)
         == UnitOf(fields, t.together, name)
  {
    if fields != [] {
      var n := |fields| - 1;
      SameUnit(t, wanted, fields[..n], name);
      SameTogether(t, wanted, name, fields[n].name);
      var kept := KeptFields(fields[..n], t.together, wanted);
      if Reached(t.together, wanted, fields[n].name) {
        assert (kept + [fields[n]])[..|kept|] == kept;
      } else {
        if Together(t.together, name, fields[n].name) {
          ReachedTogether(t.together, wanted, name, fields[n].name);
          assert false;
        }
        assert KeptFields(fields, t.together, wanted) == kept;
      }
    }
  }

  /** Whether an earlier field was generated with a reached one can be told from the kept ones. */
  lemma {:induction false} SameSeen(t: SemanticType, wanted: seq<string>, before: seq<FieldSpec>, name: string)
    requires WellFormed(t) && Reached(t.together, wanted, name)
    ensures Seen(KeptFields(before, t.together, wanted), KeptGroups(t.together, t.together, wanted), name)
        <==> Seen(before, t.together, name)
  {
    var kept, groups := KeptFields(before, t.together, wanted), KeptGroups(t.together, t.together, wanted);
    if i :| 0 <= i < |kept| && Together(groups, kept[i].name, name) {
      assert kept[i] in kept;
      SameTogether(t, wanted, kept[i].name, name);
      var j :| 0 <= j < |before| && before[j] == kept[i];
    }
    if i :| 0 <= i < |before| && Together(t.together, before[i].name, name) {
      TogetherIsEquivalence(t.together, before[i].name, name, name);
      ReachedTogether(t.together, wanted, name, before[i].name);
      assert before[i] in before && before[i] in kept;
      SameTogether(t, wanted, before[i].name, name);
      var j :| 0 <= j < |kept| && kept[j] == before[i];
    }
  }

  /** A unit some wanted field is in. */
  predicate Meets(unit: seq<FieldSpec>, wanted: seq<string>) {
    exists i :: 0 <= i < |unit| && unit[i].name in wanted
  }

  function Meeting(units: seq<seq<FieldSpec>>, wanted: seq<string>): seq<seq<FieldSpec>> {
    if units == [] then []
    else
      var n := |units| - 1;
      Meeting(units[..n], wanted) + if Meets(units[n], wanted) then [units[n]] else []
  }

  lemma UnitMeetsIfReached(t: SemanticType, wanted: seq<string>, name: string)
    requires WellFormed(t) && Known(t.fields, wanted)
    ensures Meets(UnitOf(t.fields, t.together, name), wanted) <==> Reached(t.together, wanted, name)
  {
    var unit := UnitOf(t.fields, t.together, name);
    if Reached(t.together, wanted, name) {
      var i :| 0 <= i < |wanted| && Together(t.together, wanted[i], name);
      assert HasField(t.fields, wanted[i]);
      var j :| 0 <= j < |t.fields| && t.fields[j].name == wanted[i];
      TogetherIsEquivalence(t.together, wanted[i], name, name);
      assert t.fields[j] in unit;
      var k :| 0 <= k < |unit| && unit[k] == t.fields[j];
    }
    if k :| 0 <= k < |unit| && unit[k].name in wanted {
      var i :| 0 <= i < |wanted| && wanted[i] == unit[k].name;
      assert unit[k] in unit;
      TogetherIsEquivalence(t.together, name, unit[k].name, name);
    }
  }

  lemma OneMoreUnit(prefix: seq<FieldSpec>, f: FieldSpec, fields: seq<FieldSpec>, together: seq<seq<string>>)
    ensures Units(prefix + [f], fields, together)
         == if Seen(prefix, together, f.name) then Units(prefix, fields, together)
            else Units(prefix, fields, together) + [UnitOf(fields, together, f.name)]
  {
    assert (prefix + [f])[..|prefix|] == prefix;
  }

  lemma OneMoreMeeting(units: seq<seq<FieldSpec>>, unit: seq<FieldSpec>, wanted: seq<string>)
    ensures Meeting(units + [unit], wanted) == if Meets(unit, wanted) then Meeting(units, wanted) + [unit] else Meeting(units, wanted)
  {
    assert (units + [unit])[..|units|] == units;
  }

  lemma OneMoreKept(fields: seq<FieldSpec>, f: FieldSpec, together: seq<seq<string>>, wanted: seq<string>)
    ensures KeptFields(fields + [f], together, wanted)
         == if Reached(together, wanted, f.name) then KeptFields(fields, together, wanted) + [f]
            else KeptFields(fields, together, wanted)
  {
    assert (fields + [f])[..|fields|] == fields;
  }

  lemma {:induction false} UnitsOfKept(t: SemanticType, wanted: seq<string>, prefix: seq<FieldSpec>)
    requires WellFormed(t) && Known(t.fields, wanted)
    ensures
      var p := PrunedType(t, wanted);
      Units(KeptFields(prefix, t.together, wanted), p.fields, p.together) == Meeting(Units(prefix, t.fields, t.together), wanted)
  {
    if prefix != [] {
      var n, p := |prefix| - 1, PrunedType(t, wanted);
      var f, before := prefix[n], prefix[..n];
      assert prefix == before + [f];
      UnitsOfKept(t, wanted, before);
      hide Units, Meeting, KeptFields, Reached, Seen, UnitOf, Meets, WellFormed, Known, KeptGroups;
      OneMoreKept(before, f, t.together, wanted);
      OneMoreUnit(before, f, t.fields, t.together);
      OneMoreUnit(KeptFields(before, t.together, wanted), f, p.fields, p.together);
      OneMoreMeeting(Units(before, t.fields, t.together), UnitOf(t.fields, t.together, f.name), wanted);
      UnitMeetsIfReached(t, wanted, f.name);
      if Reached(t.together, wanted, f.name) {
        SameUnit(t, wanted, t.fields, f.name);
        SameSeen(t, wanted, before, f.name);
      }
    }
  }

  /** The units of the pruned type are exactly the units of the full type that the query's
      fields meet: the same specs, in the same order. */
  lemma PruningKeepsUnits(t: SemanticType, wanted: seq<string>)
    requires WellFormed(t) && Known(t.fields, wanted)
    ensures UnitsOf(PrunedType(t, wanted)) == Meeting(UnitsOf(t), wanted)
  {
    UnitsOfKept(t, wanted, t.fields);
  }

  lemma {:induction false} MeetingIsFromUnits(units: seq<seq<FieldSpec>>, wanted: seq<string>, u: seq<FieldSpec>)
    ensures u in Meeting(units, wanted) <==> u in units && Meets(u, wanted)
  {
    if units != [] {
      var n := |units| - 1;
      MeetingIsFromUnits(units[..n], wanted, u);
      assert units == units[..n] + [units[n]];
    }
  }

  /** So a unit one query generates is a unit of every query that reaches it, spec for spec:
      its cache key does not depend on which query asked. */
  lemma UnitDoesNotDependOnTheQuery(t: SemanticType, one: seq<string>, other: seq<string>, unit: seq<FieldSpec>)
    requires WellFormed(t) && Known(t.fields, one) && Known(t.fields, other)
    requires unit in UnitsOf(PrunedType(t, one)) && Meets(unit, other)
    ensures unit in UnitsOf(PrunedType(t, other))
  {
    PruningKeepsUnits(t, one);
    PruningKeepsUnits(t, other);
    MeetingIsFromUnits(UnitsOf(t), one, unit);
    MeetingIsFromUnits(UnitsOf(t), other, unit);
  }
}
