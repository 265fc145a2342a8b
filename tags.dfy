/** The named binary tag tree the chunk format is written in, as a value.
    Parsing and serialising it is done by an external library and is not part
    of this model; only the tree and the by-name lookups the code performs are. */
module Tags {
  import opened Common

  datatype Payload =
    | Byte(b: int)
    | Int(i: int)
    | Long(l: int)
    | Str(s: string)
    | LongArray(words: seq<nat>)
    | List(items: seq<Tag>)
    | Compound(tags: seq<Tag>)
    | Opaque(raw: seq<byte>)   // any tag kind the modelled code passes through untouched

  datatype Tag = Tag(name: string, payload: Payload)

  /** `key in compound`: some child tag carries that name. */
  predicate Has(t: Tag, key: string)
  {
    t.payload.Compound? && exists i :: 0 <= i < |t.payload.tags| && t.payload.tags[i].name == key
  }

  /** Position of the first child named `key`. */
  function FirstIndex(tags: seq<Tag>, key: string): (r: nat)
    ensures r <= |tags|
    ensures r < |tags| ==> tags[r].name == key
    ensures forall j :: 0 <= j < r ==> tags[j].name != key
  {
    if tags == [] then 0
    else if tags[0].name == key then 0
    else 1 + FirstIndex(tags[1..], key)
  }

  /** `compound[key]`: the first child with that name; `KeyError` when there is
      none, `TypeError` when `t` is not a compound. */
  function Get(t: Tag, key: string): (r: Result<Tag>)
    ensures r.Ok? <==> Has(t, key)
    ensures r.Ok? ==> r.value.name == key && r.value in t.payload.tags
  {
    if !t.payload.Compound? then Err(TypeError)
    else
      var i := FirstIndex(t.payload.tags, key);
      if i < |t.payload.tags| then Ok(t.payload.tags[i])
      else Err(KeyError)
  }

  /** The elements of a list tag (`len(...)`, iteration). */
  function Items(t: Tag): (r: Result<seq<Tag>>)
    ensures r.Ok? <==> t.payload.List?
  {
    if t.payload.List? then Ok(t.payload.items) else Err(TypeError)
  }
}
