/**
 * The already-parsed JSON document that the gcov parser walks (a rapidjson DOM).
 * Turning text into a document is not modelled: text rapidjson rejects is the
 * document `Malformed`.
 */
module Json {
  import opened Wrappers

  /** 2^32: rapidjson's `IsUint` holds exactly for integers in [0, 2^32). */
  const UINT_LIMIT: nat := 0x1_0000_0000

  datatype Value =
    | JNull
    | JBool(b: bool)
    | JInt(i: int)      // a number written without fraction or exponent
    | JFloat            // any other number; its value is never inspected
    | JString(s: string)
    | JArray(elems: seq<Value>)
    | JObject(members: seq<(string, Value)>)

  datatype Document = Malformed | Parsed(root: Value)

  predicate IsUint(v: Value) {
    v.JInt? && 0 <= v.i < UINT_LIMIT
  }

  /**
   * rapidjson's member lookup (`HasMember`, `operator[]`): a linear scan that
   * yields the value of the FIRST member with the given name.
   */
  function Find(members: seq<(string, Value)>, name: string): (r: Option<Value>)
    ensures r.None? <==> forall k :: 0 <= k < |members| ==> members[k].0 != name
    ensures r.Some? ==> exists k :: 0 <= k < |members| && members[k] == (name, r.value) &&
                                    forall k' :: 0 <= k' < k ==> members[k'].0 != name
  {
    if members == [] then None
    else if members[0].0 == name then Some(members[0].1)
    else
      var r := Find(members[1..], name);
      assert r.Some? ==> exists k :: 1 <= k < |members| && members[k] == (name, r.value) &&
                                     forall k' :: 0 <= k' < k ==> members[k'].0 != name by {
        if r.Some? {
          var k :| 0 <= k < |members| - 1 && members[1..][k] == (name, r.value) &&
                   forall k' :: 0 <= k' < k ==> members[1..][k'].0 != name;
          assert forall k' :: 0 <= k' < k + 1 ==> members[k'].0 != name by {
            forall k' | 0 <= k' < k + 1 ensures members[k'].0 != name {
              if k' > 0 { assert members[k'] == members[1..][k' - 1]; }
            }
          }
          assert members[k + 1] == (name, r.value);
        }
      }
      r
  }

  /** A member with another name changes no lookup, wherever it sits. */
  lemma {:induction false} FindSkipsOther(a: seq<(string, Value)>, k: string, v: Value,
                                          b: seq<(string, Value)>, name: string)
    requires k != name
    ensures Find(a + [(k, v)] + b, name) == Find(a + b, name)
    decreases |a|
  {
    if a == [] {
      assert a + [(k, v)] + b == [(k, v)] + b;
      assert ([(k, v)] + b)[1..] == b;
      assert a + b == b;
    } else {
      assert (a + [(k, v)] + b)[0] == a[0] && (a + b)[0] == a[0];
      assert (a + [(k, v)] + b)[1..] == a[1..] + [(k, v)] + b;
      assert (a + b)[1..] == a[1..] + b;
      FindSkipsOther(a[1..], k, v, b, name);
    }
  }
}
