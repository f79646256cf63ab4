/** The shape of the embedded colour tables, the order in which the
    generator's nested loops visit them, and the `<base>/<name>.colorset`
    directory rule. */
module Catalog {

  /** One `name: value` item of a family's mapping. */
  datatype Variant<V> = Variant(name: string, value: V)

  /** A colour family: its name and its variants in insertion order. */
  datatype Family<V> = Family(name: string, variants: seq<Variant<V>>)

  /** Every variant of `table`, family by family, in insertion order:
      the order of `for family in colors.items(): for name in family.items()`. */
  function Variants<V>(table: seq<Family<V>>): (vs: seq<Variant<V>>)
    ensures forall a, v :: 0 <= a < |table| && v in table[a].variants ==> v in vs
    ensures forall v :: v in vs ==> exists a :: 0 <= a < |table| && v in table[a].variants
  {
    if |table| == 0 then []
    else
      var front := table[..|table| - 1];
      assert forall a :: 0 <= a < |front| ==> front[a] == table[a];
      Variants(front) + table[|table| - 1].variants
  }

  /** `f"{base_path}/{color_name}.colorset"`: the name can be read back from the directory. */
  function ColorSetDir(base: string, name: string): (dir: string)
    ensures |dir| == |base| + |name| + 10
    ensures dir[..|base| + 1] == base + "/"
    ensures dir[|base| + 1..|base| + 1 + |name|] == name
    ensures dir[|base| + 1 + |name|..] == ".colorset"
  {
    base + "/" + name + ".colorset"
  }

  /** Under one base path, distinct names give distinct directories. */
  lemma ColorSetDirInjective(base: string, name: string, name': string)
    ensures ColorSetDir(base, name) == ColorSetDir(base, name') <==> name == name'
  {
    if ColorSetDir(base, name) == ColorSetDir(base, name') {
      assert |name| == |name'|;
    }
  }

  /** The `Contents.json` file inside a colour-set directory. */
  function ContentsPath(dir: string): (path: string)
    ensures |path| == |dir| + 14 && path[..|dir|] == dir
    ensures path[|dir|..] == "/Contents.json"
  {
    dir + "/Contents.json"
  }

  /** Different colour-set directories hold different `Contents.json` paths. */
  lemma ContentsPathInjective(dir: string, dir': string)
    ensures ContentsPath(dir) == ContentsPath(dir') <==> dir == dir'
  {
    if ContentsPath(dir) == ContentsPath(dir') {
      assert |dir| == |dir'|;
    }
  }

  /** No two variants share a name. */
  ghost predicate UniqueNames<V>(vs: seq<Variant<V>>) {
    forall i, j :: 0 <= i < j < |vs| ==> vs[i].name != vs[j].name
  }

  /** A family's name with a lower-case first letter, e.g. `pastelBlue` for `PastelBlue`. */
  function Stem(familyName: string): (s: string)
    ensures |s| == |familyName|
    ensures |s| > 0 ==> s[1..] == familyName[1..]
  {
    if |familyName| == 0 then ""
    else
      var c := familyName[0];
      [if 'A' <= c <= 'Z' then (c as int - 'A' as int + 'a' as int) as char else c] + familyName[1..]
  }

  /** `name` begins with `stem`. */
  predicate HasStem(name: string, stem: string) {
    |stem| <= |name| && forall i :: 0 <= i < |stem| ==> name[i] == stem[i]
  }

  /** Neither of `p` and `q` is a prefix of the other: they differ at some position both have. */
  ghost predicate Apart(p: string, q: string) {
    exists i :: 0 <= i < |p| && i < |q| && p[i] != q[i]
  }

  /** Every variant name starts with its family's stem, and the stems of any
      two families are apart: a name tells which family it belongs to. */
  ghost predicate Stemmed<V>(table: seq<Family<V>>) {
    && (forall a, v :: 0 <= a < |table| && v in table[a].variants ==> HasStem(v.name, Stem(table[a].name)))
    && (forall a, b :: 0 <= a < |table| && 0 <= b < |table| && a != b ==> Apart(Stem(table[a].name), Stem(table[b].name)))
  }

  /** Orders the variants of a family whose stem is `n` characters long: by
      the name's length, then by the first character after the stem. */
  function ShadeKey(name: string, n: nat): int {
    if n < |name| then |name| * 0x10000 + name[n] as int else 0
  }

  /** The family lists its variants in strictly ascending shade order
      (`50` before `100` before ... `900`, then `Black`, `White`). */
  ghost predicate InShadeOrder<V>(f: Family<V>) {
    forall k :: 0 <= k < |f.variants| - 1 ==>
      ShadeKey(f.variants[k].name, |f.name|) < ShadeKey(f.variants[k + 1].name, |f.name|)
  }

  /** A family listed in strictly ascending shade order has no repeated name. */
  lemma {:induction false} InShadeOrderUnique<V>(f: Family<V>)
    requires InShadeOrder(f)
    ensures UniqueNames(f.variants)
  {
    var vs, n := f.variants, |f.name|;
    forall i, j | 0 <= i < j < |vs|
      ensures vs[i].name != vs[j].name
    {
      AscendingAcross(f, i, j);
    }
  }

  lemma {:induction false} AscendingAcross<V>(f: Family<V>, i: nat, j: nat)
    requires InShadeOrder(f)
    requires i < j < |f.variants|
    ensures ShadeKey(f.variants[i].name, |f.name|) < ShadeKey(f.variants[j].name, |f.name|)
    decreases j - i
  {
    if i + 1 < j {
      AscendingAcross(f, i + 1, j);
    }
  }

  /** Names unique within each family and stemmed by family are unique across
      the whole table, so each directory is produced once. */
  lemma {:induction false} UniqueAcrossFamilies<V>(table: seq<Family<V>>)
    requires forall a :: 0 <= a < |table| ==> UniqueNames(table[a].variants)
    requires Stemmed(table)
    ensures UniqueNames(Variants(table))
  {
    if |table| > 0 {
      var n := |table| - 1;
      var front := table[..n];
      assert forall a :: 0 <= a < |front| ==> front[a] == table[a];
      UniqueAcrossFamilies(front);
      var left, right := Variants(front), table[n].variants;
      var vs := Variants(table);
      assert vs == left + right;
      forall i, j | 0 <= i < j < |vs|
        ensures vs[i].name != vs[j].name
      {
        if j < |left| {
          assert vs[i] == left[i] && vs[j] == left[j];
        } else if |left| <= i {
          assert vs[i] == right[i - |left|] && vs[j] == right[j - |left|];
        } else {
          var u, w := left[i], right[j - |left|];
          assert vs[i] == u && vs[j] == w;
          assert u in left;
          var a :| 0 <= a < |front| && u in front[a].variants;
          assert u in table[a].variants && a != n;
          assert w in table[n].variants;
          assert HasStem(u.name, Stem(table[a].name)) && HasStem(w.name, Stem(table[n].name));
          assert Apart(Stem(table[a].name), Stem(table[n].name));
        }
      }
    }
  }

  /** `f` with every value `x` replaced by `g(x)`; names and order kept. */
  function MapFamily<V, W>(f: Family<V>, g: V -> W): (f': Family<W>)
    ensures f'.name == f.name && |f'.variants| == |f.variants|
  {
    Family(f.name, seq(|f.variants|, k requires 0 <= k < |f.variants| => Variant(f.variants[k].name, g(f.variants[k].value))))
  }

  /** Mapping the values of every family maps the values of the flattened
      table, leaving each variant's name and position alone. */
  lemma {:induction false} VariantsOfMapped<V, W>(table: seq<Family<V>>, table': seq<Family<W>>, g: V -> W)
    requires |table'| == |table|
    requires forall a :: 0 <= a < |table| ==> table'[a] == MapFamily(table[a], g)
    ensures |Variants(table')| == |Variants(table)|
    ensures forall i :: 0 <= i < |Variants(table)| ==>
      Variants(table')[i] == Variant(Variants(table)[i].name, g(Variants(table)[i].value))
  {
    if |table| > 0 {
      var n := |table| - 1;
      VariantsOfMapped(table[..n], table'[..n], g);
      var left, left' := Variants(table[..n]), Variants(table'[..n]);
      var right, right' := table[n].variants, table'[n].variants;
      assert Variants(table) == left + right;
      assert Variants(table') == left' + right';
      forall i | 0 <= i < |Variants(table)|
        ensures Variants(table')[i] == Variant(Variants(table)[i].name, g(Variants(table)[i].value))
      {
        if i >= |left| {
          assert Variants(table)[i] == right[i - |left|];
          assert Variants(table')[i] == right'[i - |left|];
        }
      }
    }
  }

  /** One iteration of the generator loop: a variant and the directory it goes to. */
  datatype Job<V> = Job(dir: string, variant: Variant<V>)

  /** The generator's nested loops with the file I/O taken out: one job per
      variant, in table order, each bound for its `<name>.colorset` directory;
      two jobs share a directory exactly when their variants share a name. */
  method Walk<V>(base: string, table: seq<Family<V>>) returns (jobs: seq<Job<V>>)
    ensures |jobs| == |Variants(table)|
    ensures forall i :: 0 <= i < |jobs| ==>
      jobs[i].variant == Variants(table)[i] && jobs[i].dir == ColorSetDir(base, Variants(table)[i].name)
    ensures forall i, j :: 0 <= i < |jobs| && 0 <= j < |jobs| ==>
      (jobs[i].dir == jobs[j].dir <==> jobs[i].variant.name == jobs[j].variant.name)
  {
    jobs := [];
    for a := 0 to |table|
      invariant |jobs| == |Variants(table[..a])|
      invariant forall i :: 0 <= i < |jobs| ==>
        jobs[i].variant == Variants(table[..a])[i] && jobs[i].dir == ColorSetDir(base, Variants(table[..a])[i].name)
    {
      var family := table[a];
      var done := Variants(table[..a]);
      for k := 0 to |family.variants|
        invariant |jobs| == |done| + k
        invariant forall i :: 0 <= i < |jobs| ==>
          jobs[i].variant == (done + family.variants[..k])[i]
          && jobs[i].dir == ColorSetDir(base, (done + family.variants[..k])[i].name)
      {
        var variant := family.variants[k];
        jobs := jobs + [Job(ColorSetDir(base, variant.name), variant)];
        assert done + family.variants[..k + 1] == (done + family.variants[..k]) + [variant];
      }
      assert table[..a + 1][..a] == table[..a];
      assert Variants(table[..a + 1]) == done + family.variants;
      assert family.variants[..|family.variants|] == family.variants;
    }
    assert table[..|table|] == table;
    forall i, j | 0 <= i < |jobs| && 0 <= j < |jobs|
      ensures jobs[i].dir == jobs[j].dir <==> jobs[i].variant.name == jobs[j].variant.name
    {
      ColorSetDirInjective(base, jobs[i].variant.name, jobs[j].variant.name);
    }
  }
}
