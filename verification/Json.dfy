/** JSON values, and the merge patch the API server applies to a custom object (RFC 7396). */
module Json {

  datatype Value =
    | Null
    | Bool(b: bool)
    | Number(n: real)
    | Text(s: string)
    | List(items: seq<Value>)
    | Object(fields: map<string, Value>)

  /** Python's `d.get(key)`: a missing key reads as `None`. */
  function Get(fields: map<string, Value>, key: string): Value {
    if key in fields then fields[key] else Null
  }

  /**
   * `MergePatch(target, patch)` of section 2 of RFC 7396: a null member deletes, any other member is
   * merged into the member of the same name, and a patch that is no object replaces the target.
   */
  function Merge(target: Value, patch: Value): Value
    decreases patch
  {
    if !patch.Object? then patch else
    var base := if target.Object? then target.fields else map[];
    Object(map k | k in base.Keys + patch.fields.Keys && !(k in patch.fields && patch.fields[k].Null?) ::
             if k in patch.fields then Merge(Get(base, k), patch.fields[k]) else base[k])
  }

  /** The fields of one object after a patch. */
  function MergeFields(base: map<string, Value>, patch: map<string, Value>): map<string, Value> {
    Merge(Object(base), Object(patch)).fields
  }

  /**
   * Member by member: null deletes, a missing member keeps what was there, an object is merged, anything else
   * replaces.
   */
  lemma MergedMember(base: map<string, Value>, patch: map<string, Value>, key: string)
    ensures var merged := MergeFields(base, patch);
            && (key !in patch ==> (key in merged <==> key in base) && (key in base ==> merged[key] == base[key]))
            && (key in patch && patch[key].Null? ==> key !in merged)
            && (key in patch && !patch[key].Null? && !patch[key].Object? ==>
                  key in merged && merged[key] == patch[key])
            && (key in patch && patch[key].Object? ==>
                  key in merged && merged[key] == Object(MergeFields(
                    if key in base && base[key].Object? then base[key].fields else map[], patch[key].fields)))
  {
    if key in patch && !patch[key].Null? {
      assert MergeFields(base, patch)[key] == Merge(Get(base, key), patch[key]);
      if patch[key].Object? {
        assert Merge(Get(base, key), patch[key]) ==
               Merge(Object(if key in base && base[key].Object? then base[key].fields else map[]), patch[key]);
      }
    }
  }
}
