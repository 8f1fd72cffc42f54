/**
 The groups of verdicts the program stores: every field of one generation unit for one text, and
 single verdicts of everything else. Two of them share all their keys or none, so on disk a unit
 is whole.
 */
module ExtractionGroups {
  import opened VerdictCache
  import opened CacheProtocol
  import opened CacheAtomicity
  import GenerationUnits

  type FieldSpec = GenerationUnits.FieldSpec

  type Unit = seq<FieldSpec>

  /** The digest of a list of texts. */
  type Digest = seq<string> -> nat

  ghost predicate Separates(digest: Digest) {
    forall a, b :: digest(a) == digest(b) ==> a == b
  }

  const EXTRACT_PROMPT := "extract-v1"

  /** The schemes whose verdicts are stored one at a time. */
  const SINGLE_PROMPTS := {"means-v2", "means-v2-chunked", "classify-v1", "relevance-v1", "cluster-v1"}

  // ---- what identifies a unit ----

  const HEX_DIGITS := "0123456789abcdef"

  function Hex(n: nat): string {
    (if n < 16 then "" else Hex(n / 16)) + [HEX_DIGITS[n % 16]]
  }

  lemma DigitsDiffer(i: nat, j: nat)
    requires i < 16 && j < 16 && HEX_DIGITS[i] == HEX_DIGITS[j]
    ensures i == j
  {
  }

  lemma NoDigitIsAt(i: nat)
    requires i < 16
    ensures HEX_DIGITS[i] != '@'
  {
  }

  lemma {:induction false} HexHasNoAt(n: nat)
    ensures '@' !in Hex(n)
  {
    NoDigitIsAt(n % 16);
    if n >= 16 {
      HexHasNoAt(n / 16);
    }
  }

  lemma {:induction false} HexIsNotEmpty(n: nat)
    ensures |Hex(n)| > 0
  {
  }

  lemma {:induction false} HexSeparates(a: nat, b: nat)
    requires Hex(a) == Hex(b)
    ensures a == b
  {
    var s, t := Hex(a), Hex(b);
    assert s[|s| - 1] == HEX_DIGITS[a % 16] && t[|t| - 1] == HEX_DIGITS[b % 16];
    DigitsDiffer(a % 16, b % 16);
    assert s[..|s| - 1] == if a < 16 then "" else Hex(a / 16);
    assert t[..|t| - 1] == if b < 16 then "" else Hex(b / 16);
    if a >= 16 {
      HexIsNotEmpty(a / 16);
    }
    if b >= 16 {
      HexIsNotEmpty(b / 16);
    }
    if a >= 16 && b >= 16 {
      HexSeparates(a / 16, b / 16);
    }
  }

  function TypeVersion(name: string, hash: nat): string {
    name + "@" + Hex(hash)
  }

  /** The last `@` ends the name, whatever the name contains. */
  lemma LastAtEndsTheName(name: string, other: string, h: string, g: string)
    requires name + "@" + h == other + "@" + g && '@' !in h && '@' !in g
    ensures name == other && h == g
  {
    var s, t := name + "@" + h, other + "@" + g;
    assert forall i :: |name| < i < |s| ==> s[i] == h[i - |name| - 1];
    assert forall i :: |other| < i < |t| ==> t[i] == g[i - |other| - 1];
    assert s[|name|] == '@' && t[|other|] == '@';
    assert |name| == |other|;
    assert name == s[..|name|] && other == t[..|other|];
    assert h == s[|name| + 1..] && g == t[|other| + 1..];
  }

  lemma TypeVersionSeparates(name: string, hash: nat, other: string, code: nat)
    requires TypeVersion(name, hash) == TypeVersion(other, code)
    ensures name == other && hash == code
  {
    HexHasNoAt(hash);
    HexHasNoAt(code);
    LastAtEndsTheName(name, other, Hex(hash), Hex(code));
    HexSeparates(hash, code);
  }

  /** Name, type and description of every member, one after another. */
  function Rendered(unit: Unit): (r: seq<string>)
    ensures |r| == 3 * |unit|
  {
    if unit == [] then []
    else
      var last := unit[|unit| - 1];
      Rendered(unit[..|unit| - 1]) + [last.name, last.ty, last.doc]
  }

  lemma {:induction false} RenderingSeparates(a: Unit, b: Unit)
    requires Rendered(a) == Rendered(b)
    ensures a == b
  {
    assert |a| == |b|;
    if a != [] {
      var n := |a| - 1;
      var r, s := Rendered(a), Rendered(b);
      assert r[..3 * n] == Rendered(a[..n]) && s[..3 * n] == Rendered(b[..n]);
      RenderingSeparates(a[..n], b[..n]);
      assert r[3 * n..] == [a[n].name, a[n].ty, a[n].doc] && s[3 * n..] == [b[n].name, b[n].ty, b[n].doc];
      assert a == a[..n] + [a[n]] && b == b[..n] + [b[n]];
    }
  }

  function UnitHash(digest: Digest, unit: Unit): nat {
    digest(Rendered(unit))
  }

  function ExtractKey(digest: Digest, typeName: string, unit: Unit, field: string, text: string, model: string): CacheKey {
    CacheKey(TypeVersion(typeName, UnitHash(digest, unit)), field, digest([text]), model, EXTRACT_PROMPT)
  }

  /** A key of one unit and text is a key of no other. */
  lemma KeyTellsTheUnit(
    digest: Digest, typeName: string, unit: Unit, field: string, text: string, model: string,
    otherType: string, otherUnit: Unit, otherField: string, otherText: string, otherModel: string)
    requires Separates(digest)
    requires ExtractKey(digest, typeName, unit, field, text, model)
          == ExtractKey(digest, otherType, otherUnit, otherField, otherText, otherModel)
    ensures typeName == otherType && unit == otherUnit && text == otherText && model == otherModel
  {
    TypeVersionSeparates(typeName, UnitHash(digest, unit), otherType, UnitHash(digest, otherUnit));
    assert digest(Rendered(unit)) == digest(Rendered(otherUnit));
    RenderingSeparates(unit, otherUnit);
    assert digest([text]) == digest([otherText]);
    assert [text][0] == [otherText][0];
  }

  // ---- what is stored together ----

  /** A unit of which every member validated, or a verdict on its own. */
  datatype Put =
    | Extraction(typeName: string, unit: Unit, text: string, model: string, values: seq<CachedValue>)
    | Single(key: CacheKey, verdict: CachedValue)
  {
    predicate Formed() {
      match this
      case Extraction(_, unit, _, _, values) => |values| == |unit|
      case Single(key, _) => key.promptVersion in SINGLE_PROMPTS
    }
  }

  function KeyOf(digest: Digest, put: Put, i: nat): CacheKey
    requires put.Extraction? ==> i < |put.unit|
  {
    match put
    case Extraction(typeName, unit, text, model, _) => ExtractKey(digest, typeName, unit, unit[i].name, text, model)
    case Single(key, _) => key
  }

  function Size(put: Put): nat {
    if put.Extraction? then |put.unit| else 1
  }

  function Entries(digest: Digest, put: Put): (rows: seq<Row>)
    requires put.Formed()
    ensures |rows| == Size(put) && forall i :: 0 <= i < |rows| ==> rows[i].key == KeyOf(digest, put, i)
  {
    seq(Size(put), i requires 0 <= i < Size(put) =>
      Row(KeyOf(digest, put, i), if put.Extraction? then put.values[i] else put.verdict))
  }

  /** A group's keys are those of its members. */
  lemma EntriesName(digest: Digest, put: Put, k: CacheKey) returns (i: nat)
    requires put.Formed() && k in Group(Entries(digest, put))
    ensures i < Size(put) && KeyOf(digest, put, i) == k
  {
    var rows := Entries(digest, put);
    GroupKeys(rows, k);
    i :| i < |rows| && rows[i].key == k;
  }

  lemma MembersAreNamed(digest: Digest, put: Put, i: nat)
    requires put.Formed() && i < Size(put)
    ensures KeyOf(digest, put, i) in Group(Entries(digest, put))
  {
    var rows := Entries(digest, put);
    assert rows[i].key == KeyOf(digest, put, i);
    GroupKeys(rows, rows[i].key);
  }

  /** Puts with a key in common have all of them in common. */
  lemma SharedKeySharesAll(digest: Digest, a: Put, b: Put, k: CacheKey)
    requires Separates(digest) && a.Formed() && b.Formed()
    requires k in Group(Entries(digest, a)) && k in Group(Entries(digest, b))
    ensures Within(Group(Entries(digest, a)), Group(Entries(digest, b)))
  {
    var i := EntriesName(digest, a, k);
    var j := EntriesName(digest, b, k);
    if a.Extraction? && b.Extraction? {
      KeyTellsTheUnit(digest, a.typeName, a.unit, a.unit[i].name, a.text, a.model,
                      b.typeName, b.unit, b.unit[j].name, b.text, b.model);
    }
    assert a.Extraction? <==> b.Extraction?;
    forall k' | k' in Group(Entries(digest, a)) ensures k' in Group(Entries(digest, b)) {
      var n := EntriesName(digest, a, k');
      assert KeyOf(digest, b, n) == KeyOf(digest, a, n);
      MembersAreNamed(digest, b, n);
    }
  }

  lemma PutsAreEqualOrDisjoint(digest: Digest, a: Put, b: Put)
    requires Separates(digest) && a.Formed() && b.Formed()
    ensures
      var p, q := Group(Entries(digest, a)), Group(Entries(digest, b));
      SameKeys(p, q) || Apart(p, q)
  {
    var p, q := Group(Entries(digest, a)), Group(Entries(digest, b));
    if k :| k in p && k in q {
      SharedKeySharesAll(digest, a, b, k);
      SharedKeySharesAll(digest, b, a, k);
    }
  }

  // ---- over runs of the cache ----

  ghost predicate Stores(digest: Digest, put: Put, entries: seq<Row>) {
    put.Formed() && entries == Entries(digest, put)
  }

  ghost predicate IsPut(digest: Digest, entries: seq<Row>) {
    exists put :: Stores(digest, put, entries)
  }

  /** Every store of the run is one of the program's. */
  ghost predicate ProgramRun(digest: Digest, steps: seq<Step>) {
    forall j :: 0 <= j < |steps| && steps[j].Store? ==> IsPut(digest, steps[j].entries)
  }

  ghost predicate GroupOf(digest: Digest, put: Put, p: Table) {
    put.Formed() && p == Group(Entries(digest, put))
  }

  ghost predicate IsGroup(digest: Digest, p: Table) {
    exists put :: GroupOf(digest, put, p)
  }

  lemma {:induction false} PutsAreGroups(digest: Digest, disk: Table, steps: seq<Step>)
    requires ProgramRun(digest, steps)
    ensures forall p :: p in Exec(Start(disk), steps).puts ==> IsGroup(digest, p)
  {
    if steps != [] {
      var earlier, step := steps[..|steps| - 1], steps[|steps| - 1];
      PutsAreGroups(digest, disk, earlier);
      if step.Store? {
        var put :| Stores(digest, put, step.entries);
        assert GroupOf(digest, put, Group(step.entries));
      }
    }
  }

  lemma GroupsAreEqualOrDisjoint(digest: Digest, puts: set<Table>)
    requires Separates(digest) && forall p :: p in puts ==> IsGroup(digest, p)
    ensures EqualOrDisjoint(puts)
  {
    forall p, q | p in puts && q in puts ensures SameKeys(p, q) || Apart(p, q) {
      var a :| GroupOf(digest, a, p);
      var b :| GroupOf(digest, b, q);
      PutsAreEqualOrDisjoint(digest, a, b);
    }
  }

  /** Whatever the instances, the interleaving, the failures and the crashes: of the fields of a unit
      ever stored for a text the file holds none or all, with the verdicts of a single put. */
  lemma UnitsAreWholeOnDisk(digest: Digest, steps: seq<Step>, put: Put)
    requires Separates(digest) && ProgramRun(digest, steps) && forall step :: step in steps ==> !step.Tamper?
    requires put.Formed() && Group(Entries(digest, put)) in Exec(Start(map[]), steps).puts
    ensures
      var s := Exec(Start(map[]), steps);
      && Whole(s.disk, s.puts, Group(Entries(digest, put)))
      && ((forall i :: 0 <= i < Size(put) ==> KeyOf(digest, put, i) !in s.disk)
          || (forall i :: 0 <= i < Size(put) ==> KeyOf(digest, put, i) in s.disk))
  {
    var s, group := Exec(Start(map[]), steps), Group(Entries(digest, put));
    PutsAreGroups(digest, map[], steps);
    GroupsAreEqualOrDisjoint(digest, s.puts);
    GroupsAreWhole(steps);
    forall i | 0 <= i < Size(put) ensures KeyOf(digest, put, i) in group {
      MembersAreNamed(digest, put, i);
    }
    assert Whole(s.disk, s.puts, group);
  }
}
