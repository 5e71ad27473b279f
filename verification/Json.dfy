/** JSON trees as Python's json module builds them. */
module JsonTrees {

  /** An object is a dict, so keys are unique. Integers and floats are different Python types. */
  datatype Json =
    | JNull
    | JBool(truth: bool)
    | JInt(number: int)
    | JFloat(decimal: real)
    | JString(text: string)
    | JArray(items: seq<Json>)
    | JObject(fields: map<string, Json>)

  predicate IsContainer(v: Json) {
    v.JArray? || v.JObject?
  }

  /** The values directly inside a container. */
  ghost function Children(v: Json): set<Json> {
    match v
    case JArray(items) => set x | x in items
    case JObject(fields) => fields.Values
    case _ => {}
  }

  /** How many containers enclose the deepest point of the tree, counted recursively. */
  ghost function Depth(v: Json): nat
    decreases v
  {
    if IsContainer(v) then 1 + MaxDepth(v, Children(v)) else 0
  }

  ghost function MaxDepth(v: Json, s: set<Json>): nat
    requires s <= Children(v)
    decreases v, |s|
  {
    if s == {} then 0
    else
      var c :| c in s;
      assert c < v;
      var rest := MaxDepth(v, s - {c});
      if Depth(c) > rest then Depth(c) else rest
  }

  lemma {:induction false} MaxDepthIsMaximum(v: Json, s: set<Json>)
    requires s <= Children(v)
    ensures forall c :: c in s ==> Depth(c) <= MaxDepth(v, s)
    ensures s != {} ==> exists c :: c in s && Depth(c) == MaxDepth(v, s)
    ensures s == {} ==> MaxDepth(v, s) == 0
    decreases |s|
  {
    if s != {} {
      var c :| c in s && MaxDepth(v, s) == (if Depth(c) > MaxDepth(v, s - {c}) then Depth(c) else MaxDepth(v, s - {c}));
      MaxDepthIsMaximum(v, s - {c});
      if Depth(c) <= MaxDepth(v, s - {c}) && s - {c} == {} {
        assert Depth(c) == MaxDepth(v, s);
      }
    }
  }
}
