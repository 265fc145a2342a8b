/** A block: a namespaced identifier with a property dictionary, and the tag
    compound that stores it in a section palette (pyblock/block.py). */
module Blocks {
  import opened Common
  import opened Tags

  /** The keys of an association list, in order. */
  function KeysOf(p: seq<(string, string)>): (r: seq<string>)
    ensures |r| == |p| && forall i :: 0 <= i < |p| ==> r[i] == p[i].0
  {
    if p == [] then [] else [p[0].0] + KeysOf(p[1..])
  }

  predicate DistinctKeys(p: seq<(string, string)>)
  {
    forall i, j :: 0 <= i < j < |p| ==> p[i].0 != p[j].0
  }

  /** A Python dict of strings: entries in insertion order, no key twice. */
  type Dict = p: seq<(string, string)> | DistinctKeys(p) witness []

  /** The dict as a mathematical map; equality of dicts ignores order. */
  function AsMap(d: Dict): map<string, string>
  {
    if d == [] then map[]
    else
      var rest: Dict := d[1..];
      AsMap(rest)[d[0].0 := d[0].1]
  }

  /** The map has the dict's keys, each with the dict's value. */
  lemma {:induction false} AsMapSpec(d: Dict)
    ensures AsMap(d).Keys == set i | 0 <= i < |d| :: d[i].0
    ensures forall i :: 0 <= i < |d| ==> d[i].0 in AsMap(d) && AsMap(d)[d[i].0] == d[i].1
  {
    if d != [] {
      var rest: Dict := d[1..];
      AsMapSpec(rest);
      assert (set i | 0 <= i < |d| :: d[i].0) == (set i | 0 <= i < |rest| :: rest[i].0) + {d[0].0} by {
        forall i | 0 <= i < |d| ensures d[i].0 in (set i | 0 <= i < |rest| :: rest[i].0) + {d[0].0} {
          if i > 0 { assert d[i].0 == rest[i - 1].0; }
        }
      }
    }
  }

  /** `d[k] = v`: an existing key keeps its position, a new key goes last. */
  function Insert(d: Dict, k: string, v: string): (r: Dict)
    ensures AsMap(r) == AsMap(d)[k := v]
    ensures KeyIndex(d, k) < |d| ==> |r| == |d| && forall j :: 0 <= j < |d| ==> r[j].0 == d[j].0
    ensures KeyIndex(d, k) == |d| ==> r == d + [(k, v)]
  {
    var i := KeyIndex(d, k);
    AsMapSpec(d);
    if i < |d| then
      var r := d[i := (k, v)];
      assert forall j :: 0 <= j < |r| ==> r[j].0 == d[j].0;
      AsMapDetermined(r, AsMap(d)[k := v]);
      r
    else
      var r := d + [(k, v)];
      var m := AsMap(d)[k := v];
      forall key | key in m ensures exists j :: 0 <= j < |r| && r[j].0 == key {
        if key != k {
          var j :| 0 <= j < |d| && d[j].0 == key;
          assert r[j].0 == key;
        } else {
          assert r[|d|].0 == key;
        }
      }
      AsMapDetermined(r, m);
      r
  }

  /** A map with exactly the dict's keys and values is the dict's map. */
  lemma AsMapDetermined(d: Dict, m: map<string, string>)
    requires forall i :: 0 <= i < |d| ==> d[i].0 in m && m[d[i].0] == d[i].1
    requires forall k :: k in m ==> exists i :: 0 <= i < |d| && d[i].0 == k
    ensures AsMap(d) == m
  {
    AsMapSpec(d);
    var a := AsMap(d);
    assert a.Keys == m.Keys by {
      forall k | k in m ensures k in a {
        var i :| 0 <= i < |d| && d[i].0 == k;
      }
    }
  }

  function KeyIndex(d: seq<(string, string)>, k: string): (i: nat)
    ensures i <= |d| && (i < |d| ==> d[i].0 == k)
    ensures forall j :: 0 <= j < i ==> d[j].0 != k
  {
    if d == [] then 0 else if d[0].0 == k then 0 else 1 + KeyIndex(d[1..], k)
  }

  /** A dict built by inserting the pairs in order (a dict comprehension). */
  function FromPairs(ps: seq<(string, string)>): (r: Dict)
  {
    if ps == [] then [] else Insert(FromPairs(ps[..|ps| - 1]), ps[|ps| - 1].0, ps[|ps| - 1].1)
  }

  /** Inserting the entries of a dict one by one rebuilds it. */
  lemma {:induction false} FromPairsOfDict(d: Dict)
    ensures FromPairs(d) == d
  {
    if d != [] {
      var init: Dict := d[..|d| - 1];
      FromPairsOfDict(init);
      assert d[|d| - 1].0 !in KeysOf(init);
      assert KeyIndex(init, d[|d| - 1].0) == |init|;
      assert init + [d[|d| - 1]] == d;
    }
  }

  datatype Block = Block(id: string, properties: Dict, compound: Tag)

  /** The argument of `__eq__`: a block or any other Python object. */
  datatype Operand = IsBlock(block: Block) | NotBlock

  const DEFAULT_NAMESPACE: string := "minecraft"

  /** The `Properties` compound of a non-empty dict: one string tag per entry. */
  function PropertyTags(d: Dict): (r: seq<Tag>)
    ensures |r| == |d|
    ensures forall i :: 0 <= i < |d| ==> r[i] == Tag(d[i].0, Str(d[i].1))
  {
    if d == [] then [] else [Tag(d[0].0, Str(d[0].1))] + PropertyTags(d[1..])
  }

  /** `Block(name, properties, namespace=...)`: the identifier is
      `namespace:name`; the compound holds a `Properties` compound when there are
      properties, then the `Name` string. */
  function FromName(name: string, properties: Dict, namespace: string := DEFAULT_NAMESPACE): (b: Block)
    ensures b.id == namespace + ":" + name && b.properties == properties
    ensures b.compound.payload.Compound?
    ensures properties == [] ==> b.compound.payload.tags == [Tag("Name", Str(b.id))]
    ensures properties != [] ==>
              b.compound.payload.tags == [Tag("Properties", Compound(PropertyTags(properties))), Tag("Name", Str(b.id))]
  {
    var id := namespace + ":" + name;
    var props := if properties != [] then [Tag("Properties", Compound(PropertyTags(properties)))] else [];
    Block(id, properties, Tag("", Compound(props + [Tag("Name", Str(id))])))
  }

  /** No later child of `tags` has the name of child i. */
  predicate LastNamed(tags: seq<Tag>, i: nat)
    requires i < |tags|
  {
    forall j :: i < j < |tags| ==> tags[j].name != tags[i].name
  }

  /** `d` is what `{k: v.value for k, v in tags}` builds: a key for every
      child's name, the value of the last string child of that name, and the
      keys in the order their names first occur. */
  ghost predicate ReadAs(tags: seq<Tag>, d: Dict)
  {
    (forall k :: k in AsMap(d) <==> exists i :: 0 <= i < |tags| && tags[i].name == k) &&
    (forall i :: 0 <= i < |tags| && tags[i].payload.Str? && LastNamed(tags, i) ==>
       tags[i].name in AsMap(d) && AsMap(d)[tags[i].name] == tags[i].payload.s) &&
    (forall i, j :: 0 <= i < j < |d| ==> FirstIndex(tags, d[i].0) < FirstIndex(tags, d[j].0))
  }

  /** The property dict read from the children of a `Properties` compound. */
  function PropertiesFromTags(tags: seq<Tag>): (r: Result<Dict>)
    ensures r.Ok? <==> forall i :: 0 <= i < |tags| ==> tags[i].payload.Str?
    ensures r.Ok? ==> ReadAs(tags, r.value)
    ensures r.Err? ==> r.error == TypeError
  {
    if tags == [] then Ok([])
    else
      var last := tags[|tags| - 1];
      var init := PropertiesFromTags(tags[..|tags| - 1]);
      assert forall i :: 0 <= i < |tags| - 1 ==> tags[..|tags| - 1][i] == tags[i];
      if init.Err? then Err(init.error)
      else if !last.payload.Str? then Err(TypeError)
      else
        ReadAsStep(tags, init.value);
        Ok(Insert(init.value, last.name, last.payload.s))
  }

  /** A child named after none before it is first found at its own place;
      one whose name occurs earlier is found where it was. */
  lemma FirstIndexSnoc(p: seq<Tag>, x: Tag, key: string)
    ensures FirstIndex(p, key) < |p| ==> FirstIndex(p + [x], key) == FirstIndex(p, key)
    ensures FirstIndex(p, key) == |p| && x.name == key ==> FirstIndex(p + [x], key) == |p|
  {
    var q := p + [x];
    assert forall j :: 0 <= j < |p| ==> q[j] == p[j];
    assert q[|p|] == x;
  }

  /** Two children of one name: the dict has that key once, with the later value. */
  lemma LaterPropertyWins()
    ensures PropertiesFromTags([Tag("a", Str("x")), Tag("a", Str("y"))]) == Ok([("a", "y")])
  {
    var tags, first := [Tag("a", Str("x")), Tag("a", Str("y"))], [Tag("a", Str("x"))];
    assert tags[..1] == first && first[..0] == [];
    assert Insert([], "a", "x") == [("a", "x")];
    assert PropertiesFromTags(first) == Ok([("a", "x")]);
    var r := Insert([("a", "x")], "a", "y");
    assert PropertiesFromTags(tags) == Ok(r);
    assert |r| == 1 && r[0].0 == "a" && AsMap(r)["a"] == "y";
    AsMapSpec(r);
    assert r[0] == ("a", "y");
    assert r == [r[0]];
  }

  /** One more string child: inserting it keeps the reading exact. */
  lemma ReadAsStep(tags: seq<Tag>, d: Dict)
    requires tags != [] && tags[|tags| - 1].payload.Str?
    requires ReadAs(tags[..|tags| - 1], d)
    ensures ReadAs(tags, Insert(d, tags[|tags| - 1].name, tags[|tags| - 1].payload.s))
  {
    var p, last := tags[..|tags| - 1], tags[|tags| - 1];
    assert tags == p + [last];
    StepKeys(p, last, d);
    StepValues(p, last, d);
    StepOrder(p, last, d);
  }

  lemma StepKeys(p: seq<Tag>, last: Tag, d: Dict)
    requires last.payload.Str? && ReadAs(p, d)
    ensures var r, tags := Insert(d, last.name, last.payload.s), p + [last];
      forall k :: k in AsMap(r) <==> exists i :: 0 <= i < |tags| && tags[i].name == k
  {
    var r, tags := Insert(d, last.name, last.payload.s), p + [last];
    assert forall i :: 0 <= i < |p| ==> p[i] == tags[i];
    assert tags[|p|] == last;
    forall k ensures k in AsMap(r) <==> exists i :: 0 <= i < |tags| && tags[i].name == k {
      if k in AsMap(r) && k != last.name {
        var i :| 0 <= i < |p| && p[i].name == k;
        assert tags[i].name == k;
      }
      if k != last.name && (exists i :: 0 <= i < |tags| && tags[i].name == k) {
        var i :| 0 <= i < |tags| && tags[i].name == k;
        assert p[i].name == k;
      }
    }
  }

  lemma StepValues(p: seq<Tag>, last: Tag, d: Dict)
    requires last.payload.Str? && ReadAs(p, d)
    ensures var r, tags := Insert(d, last.name, last.payload.s), p + [last];
      forall i :: 0 <= i < |tags| && tags[i].payload.Str? && LastNamed(tags, i) ==>
        tags[i].name in AsMap(r) && AsMap(r)[tags[i].name] == tags[i].payload.s
  {
    var r, tags := Insert(d, last.name, last.payload.s), p + [last];
    assert forall i :: 0 <= i < |p| ==> p[i] == tags[i];
    forall i | 0 <= i < |tags| && tags[i].payload.Str? && LastNamed(tags, i)
      ensures tags[i].name in AsMap(r) && AsMap(r)[tags[i].name] == tags[i].payload.s
    {
      if i < |p| {
        assert tags[|p|] == last;
        assert tags[i].name != last.name;
        assert LastNamed(p, i);
      }
    }
  }

  lemma StepOrder(p: seq<Tag>, last: Tag, d: Dict)
    requires last.payload.Str? && ReadAs(p, d)
    ensures var r, tags := Insert(d, last.name, last.payload.s), p + [last];
      forall i, j :: 0 <= i < j < |r| ==> FirstIndex(tags, r[i].0) < FirstIndex(tags, r[j].0)
  {
    var r, tags := Insert(d, last.name, last.payload.s), p + [last];
    AsMapSpec(d);
    forall i | 0 <= i < |d| ensures FirstIndex(tags, d[i].0) == FirstIndex(p, d[i].0) < |p| {
      assert d[i].0 in AsMap(d);
      var j :| 0 <= j < |p| && p[j].name == d[i].0;
      FirstIndexSnoc(p, last, d[i].0);
    }
    if KeyIndex(d, last.name) == |d| {
      assert last.name !in AsMap(d);
      FirstIndexSnoc(p, last, last.name);
      assert r[|d|] == (last.name, last.payload.s);
    }
  }

  /** `Block(compound=c)`: the identifier is the `Name` string, the properties
      those of the `Properties` compound if there is one and empty otherwise. */
  function FromCompound(c: Tag): (r: Result<Block>)
    requires c.payload.Compound?
    ensures r.Ok? ==> r.value.compound == c && Get(c, "Name") == Ok(Tag("Name", Str(r.value.id)))
    ensures r.Ok? && !Has(c, "Properties") ==> r.value.properties == []
    ensures !Has(c, "Name") ==> r == Err(KeyError)
  {
    var nameTag :- Get(c, "Name");
    if !nameTag.payload.Str? then Err(TypeError)
    else if Has(c, "Properties") then
      var propTag := Get(c, "Properties").value;
      if !propTag.payload.Compound? then Err(TypeError)
      else
        var props :- PropertiesFromTags(propTag.payload.tags);
        Ok(Block(nameTag.payload.s, props, c))
    else Ok(Block(nameTag.payload.s, [], c))
  }

  /** With a `Properties` child, the block's properties are what
      `PropertiesFromTags` reads from it; and reading a compound succeeds
      exactly when `Name` is a string and `Properties`, if present, is a
      compound of string tags. */
  lemma FromCompoundReads(c: Tag)
    requires c.payload.Compound?
    ensures var r := FromCompound(c);
      r.Ok? && Has(c, "Properties") ==>
        Get(c, "Properties").value.payload.Compound? &&
        PropertiesFromTags(Get(c, "Properties").value.payload.tags) == Ok(r.value.properties)
    ensures FromCompound(c).Ok? <==>
              Has(c, "Name") && Get(c, "Name").value.payload.Str? &&
              (Has(c, "Properties") ==>
                 Get(c, "Properties").value.payload.Compound? &&
                 forall i :: 0 <= i < |Get(c, "Properties").value.payload.tags| ==>
                   Get(c, "Properties").value.payload.tags[i].payload.Str?)
  {
  }

  /** `Block.__init__`: the compound path is taken when a non-empty compound is
      given, otherwise the name path, which needs a name. */
  function New(name: Option<string>, properties: Option<Dict>, compound: Option<Tag>,
               namespace: string := DEFAULT_NAMESPACE): (r: Result<Block>)
    requires compound.Some? ==> compound.value.payload.Compound?
    ensures compound.Some? && |compound.value.payload.tags| > 0 ==> r == FromCompound(compound.value)
    ensures (compound.None? || compound.value.payload.tags == []) ==>
              (r.Ok? <==> name.Some?)
    ensures (compound.None? || compound.value.payload.tags == []) && name.Some? ==>
              r == Ok(FromName(name.value, if properties.Some? then properties.value else [], namespace))
  {
    if compound.Some? && |compound.value.payload.tags| > 0 then FromCompound(compound.value)
    else if name.None? then Err(TypeError)
    else Ok(FromName(name.value, if properties.Some? then properties.value else [], namespace))
  }

  /** `name()`: the namespaced identifier. */
  function Name(b: Block): (r: string)
    ensures WellFormed(b) ==> Get(b.compound, "Name") == Ok(Tag("Name", Str(r)))
  {
    b.id
  }

  /** Python's repr of a string, with the quoting rule simplified to single quotes. */
  function StrRepr(s: string): string { "'" + s + "'" }

  function EntriesRepr(d: seq<(string, string)>): string
  {
    if d == [] then ""
    else if |d| == 1 then StrRepr(d[0].0) + ": " + StrRepr(d[0].1)
    else StrRepr(d[0].0) + ": " + StrRepr(d[0].1) + ", " + EntriesRepr(d[1..])
  }

  /** `repr(block)`: `Block(<id> <properties dict>)`. */
  function Repr(b: Block): (r: string)
    ensures |r| >= |b.id| + 10 && r[..6] == "Block(" && r[6..6 + |b.id|] == b.id
    ensures r[|r| - 2..] == "})"
    ensures b.properties == [] ==> r == "Block(" + b.id + " {})"
  {
    "Block(" + b.id + " " + "{" + EntriesRepr(b.properties) + "}" + ")"
  }

  /** `a == b` between blocks: identifiers and property maps agree. */
  predicate Same(a: Block, b: Block)
  {
    a.id == b.id && AsMap(a.properties) == AsMap(b.properties)
  }

  /** `__eq__`: False for a non-block, otherwise `Same`. */
  function Eq(self: Block, other: Operand): (r: bool)
    ensures other.NotBlock? ==> !r
    ensures other.IsBlock? ==> (r <==> self.id == other.block.id && AsMap(self.properties) == AsMap(other.block.properties))
  {
    other.IsBlock? && Same(self, other.block)
  }

  /** `__hash__`: the hash of the identifier xor the hash of the frozen
      property map; the two string/map hash functions are the runtime's. */
  function Hash(b: Block, hashStr: string -> bv64, hashFrozen: map<string, string> -> bv64): bv64
  {
    hashStr(b.id) ^ hashFrozen(AsMap(b.properties))
  }

  /** Equal blocks hash equally, whatever the runtime's hash functions are. */
  lemma EqualBlocksHashEqually(a: Block, b: Block, hashStr: string -> bv64, hashFrozen: map<string, string> -> bv64)
    requires Eq(a, IsBlock(b))
    ensures Hash(a, hashStr, hashFrozen) == Hash(b, hashStr, hashFrozen)
  {
  }

  /** Equality ignores the order in which the properties were inserted:
      two blocks of one name are equal exactly when their property dicts
      hold the same (key, value) entries. */
  lemma EqualIgnoresOrder(id: string, d1: Dict, d2: Dict)
    ensures Eq(FromName(id, d1), IsBlock(FromName(id, d2))) <==> forall e :: e in d1 <==> e in d2
  {
    if forall e :: e in d1 <==> e in d2 {
      SameEntriesSameMap(d1, d2);
    }
    if AsMap(d1) == AsMap(d2) {
      SameMapHasEntries(d1, d2);
      SameMapHasEntries(d2, d1);
    }
  }

  /** Dicts with the same entries have the same map. */
  lemma SameEntriesSameMap(d1: Dict, d2: Dict)
    requires forall e :: e in d1 <==> e in d2
    ensures AsMap(d1) == AsMap(d2)
  {
    AsMapSpec(d1);
    forall i | 0 <= i < |d2|
      ensures d2[i].0 in AsMap(d1) && AsMap(d1)[d2[i].0] == d2[i].1
    {
      assert d2[i] in d1;
      var j :| 0 <= j < |d1| && d1[j] == d2[i];
    }
    forall k | k in AsMap(d1)
      ensures exists i :: 0 <= i < |d2| && d2[i].0 == k
    {
      var j :| 0 <= j < |d1| && d1[j].0 == k;
      assert d1[j] in d2;
      var i :| 0 <= i < |d2| && d2[i] == d1[j];
    }
    AsMapDetermined(d2, AsMap(d1));
  }

  /** Every entry of a dict is an entry of any dict with the same map. */
  lemma SameMapHasEntries(d1: Dict, d2: Dict)
    requires AsMap(d1) == AsMap(d2)
    ensures forall e :: e in d1 ==> e in d2
  {
    AsMapSpec(d1);
    AsMapSpec(d2);
    forall e | e in d1
      ensures e in d2
    {
      var j :| 0 <= j < |d1| && d1[j] == e;
      assert e.0 in AsMap(d2).Keys;
      var i :| 0 <= i < |d2| && d2[i].0 == e.0;
      assert d2[i] == e;
    }
  }

  /** `Same` is an equivalence relation (needed for palettes). */
  lemma SameIsEquivalence(a: Block, b: Block, c: Block)
    ensures Same(a, a)
    ensures Same(a, b) ==> Same(b, a)
    ensures Same(a, b) && Same(b, c) ==> Same(a, c)
  {
  }

  lemma {:induction false} PropertiesFromPropertyTags(d: Dict)
    ensures PropertiesFromTags(PropertyTags(d)) == Ok(FromPairs(d))
  {
    if d != [] {
      var init: Dict := d[..|d| - 1];
      var tags := PropertyTags(d);
      PropertiesFromPropertyTags(init);
      assert tags[..|tags| - 1] == PropertyTags(init);
      var last := tags[|tags| - 1];
      assert last == Tag(d[|d| - 1].0, Str(d[|d| - 1].1));
      calc {
        PropertiesFromTags(tags);
        Ok(Insert(PropertiesFromTags(PropertyTags(init)).value, last.name, last.payload.s));
        Ok(Insert(FromPairs(init), d[|d| - 1].0, d[|d| - 1].1));
        Ok(FromPairs(d));
      }
    }
  }

  /** `Block(compound=Block(n, p).compound)` is `Block(n, p)` again, with the
      same identifier, the same properties in the same order and the same compound. */
  lemma {:induction false} CompoundRoundTrip(name: string, properties: Dict, namespace: string)
    ensures FromCompound(FromName(name, properties, namespace).compound) == Ok(FromName(name, properties, namespace))
  {
    var b := FromName(name, properties, namespace);
    var tags := b.compound.payload.tags;
    if properties != [] {
      assert FirstIndex(tags, "Name") == 1 by { assert tags[0].name == "Properties"; }
      assert FirstIndex(tags, "Properties") == 0;
      assert Has(b.compound, "Properties") by { assert tags[0].name == "Properties"; }
      PropertiesFromPropertyTags(properties);
      FromPairsOfDict(properties);
    } else {
      assert FirstIndex(tags, "Name") == 0;
      assert !Has(b.compound, "Properties");
    }
  }

  /** A block as the library ever holds one: re-reading its compound gives it back. */
  predicate WellFormed(b: Block)
  {
    b.compound.payload.Compound? && FromCompound(b.compound) == Ok(b)
  }

  /** Both construction paths produce well-formed blocks. */
  lemma NewIsWellFormed(name: Option<string>, properties: Option<Dict>, compound: Option<Tag>, namespace: string)
    requires compound.Some? ==> compound.value.payload.Compound?
    requires New(name, properties, compound, namespace).Ok?
    ensures WellFormed(New(name, properties, compound, namespace).value)
  {
    if compound.Some? && |compound.value.payload.tags| > 0 {
      var b := FromCompound(compound.value).value;
      assert b.compound == compound.value;
    } else {
      CompoundRoundTrip(name.value, if properties.Some? then properties.value else [], namespace);
    }
  }

  /** `Block("air")`. */
  function Air(): (b: Block)
    ensures b.id == "minecraft:air" && b.properties == []
  {
    FromName("air", [])
  }
}
