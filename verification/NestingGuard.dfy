/** The depth check on decrypted payloads (src/nio/crypto/olm_machine.py). */
module NestingGuard {
  import opened JsonTrees

  const MAX_DECRYPTED_NESTING := 128

  /** The number of nodes in a tree: what the explicit stack still has to visit. */
  ghost function Nodes(v: Json): nat
    decreases v
  {
    match v
    case JArray(items) => 1 + NodesOfItems(v, items)
    case JObject(fields) => 1 + NodesOfFields(v, fields.Keys)
    case _ => 1
  }

  ghost function NodesOfItems(v: Json, items: seq<Json>): nat
    requires v.JArray? && forall x :: x in items ==> x in v.items
    decreases v, |items|
  {
    if items == [] then 0
    else
      assert items[|items| - 1] in v.items;
      NodesOfItems(v, items[..|items| - 1]) + Nodes(items[|items| - 1])
  }

  ghost function NodesOfFields(v: Json, keys: set<string>): nat
    requires v.JObject? && keys <= v.fields.Keys
    decreases v, |keys|
  {
    if keys == {} then 0
    else
      var k :| k in keys;
      Nodes(v.fields[k]) + NodesOfFields(v, keys - {k})
  }

  /** The count of an object does not depend on the order its keys are visited in. */
  lemma {:induction false} NodesOfFieldsAnyOrder(v: Json, keys: set<string>, k: string)
    requires v.JObject? && k in keys && keys <= v.fields.Keys
    ensures NodesOfFields(v, keys) == Nodes(v.fields[k]) + NodesOfFields(v, keys - {k})
    decreases |keys|
  {
    var first :| first in keys && NodesOfFields(v, keys) == Nodes(v.fields[first]) + NodesOfFields(v, keys - {first});
    if first != k {
      NodesOfFieldsAnyOrder(v, keys - {first}, k);
      NodesOfFieldsAnyOrder(v, keys - {k}, first);
      assert keys - {first} - {k} == keys - {k} - {first};
    }
  }

  datatype Entry = Entry(item: Json, depth: int)

  /** The nodes reachable from a stack: the measure that makes the loop end. */
  ghost function Work(stack: seq<Entry>): nat {
    if stack == [] then 0 else Work(stack[..|stack| - 1]) + Nodes(stack[|stack| - 1].item)
  }

  lemma WorkPush(stack: seq<Entry>, e: Entry)
    ensures Work(stack + [e]) == Work(stack) + Nodes(e.item)
  {
    assert (stack + [e])[..|stack|] == stack;
  }

  /** Somewhere below this entry a container sits deeper than the limit. */
  ghost predicate Over(e: Entry, limit: int) {
    IsContainer(e.item) && e.depth - 1 + Depth(e.item) > limit
  }

  ghost predicate AnyOver(stack: seq<Entry>, limit: int) {
    exists e :: e in stack && Over(e, limit)
  }

  /** Within the limit itself, a container is over exactly when one of its children is. */
  lemma OverStep(e: Entry, limit: int)
    requires IsContainer(e.item) && e.depth <= limit
    ensures Over(e, limit) <==> exists c :: c in Children(e.item) && Over(Entry(c, e.depth + 1), limit)
  {
    MaxDepthIsMaximum(e.item, Children(e.item));
    if Over(e, limit) {
      var c :| c in Children(e.item) && Depth(c) == MaxDepth(e.item, Children(e.item));
      assert Over(Entry(c, e.depth + 1), limit);
    }
  }

  /** Every entry of the stack is an old one or one of these children at this depth. */
  ghost predicate Extends(extended: seq<Entry>, stack: seq<Entry>, depth: int, children: set<Json>) {
    forall e :: e in extended <==> e in stack || (e.depth == depth && e.item in children)
  }

  lemma PushOne(extended: seq<Entry>, stack: seq<Entry>, depth: int, children: set<Json>, child: Json)
    requires Extends(extended, stack, depth, children)
    ensures Extends(extended + [Entry(child, depth)], stack, depth, children + {child})
    ensures Work(extended + [Entry(child, depth)]) == Work(extended) + Nodes(child)
  {
    WorkPush(extended, Entry(child, depth));
    forall e ensures e in extended + [Entry(child, depth)] <==>
        e in stack || (e.depth == depth && e.item in children + {child})
    {
      assert e in extended + [Entry(child, depth)] <==> e in extended || e == Entry(child, depth);
    }
  }

  /** Pushes the items of an array in order. */
  method PushItems(stack: seq<Entry>, item: Json, depth: int) returns (extended: seq<Entry>)
    requires item.JArray?
    ensures Work(extended) == Work(stack) + Nodes(item) - 1
    ensures Extends(extended, stack, depth, Children(item))
  {
    extended := stack;
    ghost var pushed: set<Json> := {};
    for i := 0 to |item.items|
      invariant Work(extended) == Work(stack) + NodesOfItems(item, item.items[..i])
      invariant Extends(extended, stack, depth, pushed)
      invariant pushed == set x | x in item.items[..i]
    {
      PushOne(extended, stack, depth, pushed, item.items[i]);
      extended := extended + [Entry(item.items[i], depth)];
      pushed := pushed + {item.items[i]};
      assert item.items[..i + 1] == item.items[..i] + [item.items[i]];
    }
    assert item.items[..|item.items|] == item.items;
  }

  /** Pushes the values of an object in whatever order the dict lists them. */
  method PushFields(stack: seq<Entry>, item: Json, depth: int) returns (extended: seq<Entry>)
    requires item.JObject?
    ensures Work(extended) == Work(stack) + Nodes(item) - 1
    ensures Extends(extended, stack, depth, Children(item))
  {
    extended := stack;
    var keys := item.fields.Keys;
    ghost var pushed: set<Json> := {};
    while keys != {}
      invariant keys <= item.fields.Keys
      invariant Work(extended) + NodesOfFields(item, keys) == Work(stack) + Nodes(item) - 1
      invariant Extends(extended, stack, depth, pushed)
      invariant pushed == set k | k in item.fields.Keys - keys :: item.fields[k]
      decreases |keys|
    {
      var k :| k in keys;
      NodesOfFieldsAnyOrder(item, keys, k);
      PushOne(extended, stack, depth, pushed, item.fields[k]);
      extended := extended + [Entry(item.fields[k], depth)];
      keys, pushed := keys - {k}, pushed + {item.fields[k]};
    }
    assert pushed == Children(item);
  }

  /**
   * Tells, without recursion, whether containers nest deeper than the limit. For a negative
   * limit a scalar still passes and every container fails.
   */
  method NestingExceeds(value: Json, limit: int) returns (exceeds: bool)
    ensures exceeds <==> Depth(value) > if limit > 0 then limit else 0
  {
    var stack := [Entry(value, 1)];
    assert stack[0] in stack;
    while stack != []
      invariant AnyOver(stack, limit) <==> Depth(value) > if limit > 0 then limit else 0
      decreases Work(stack)
    {
      var e := stack[|stack| - 1];
      var rest := stack[..|stack| - 1];
      assert stack == rest + [e];
      stack := rest;
      if IsContainer(e.item) {
        if e.depth > limit {
          assert e in rest + [e] && Over(e, limit);
          return true;
        }
        OverStep(e, limit);
        if e.item.JObject? {
          stack := PushFields(rest, e.item, e.depth + 1);
        } else {
          stack := PushItems(rest, e.item, e.depth + 1);
        }
        assert Nodes(e.item) >= 1;
        AfterPush(rest, e, stack, limit);
      }
    }
    return false;
  }

  /** The check on a decrypted payload: it is rejected when more than 128 containers nest. */
  method NestedTooDeeply(parsed: Json) returns (rejected: bool)
    ensures rejected <==> Depth(parsed) > MAX_DECRYPTED_NESTING
  {
    rejected := NestingExceeds(parsed, MAX_DECRYPTED_NESTING);
  }

  /** Replacing a container by its children keeps whether anything on the stack is over. */
  lemma AfterPush(rest: seq<Entry>, e: Entry, extended: seq<Entry>, limit: int)
    requires IsContainer(e.item) && e.depth <= limit
    requires Extends(extended, rest, e.depth + 1, Children(e.item))
    ensures AnyOver(extended, limit) <==> AnyOver(rest + [e], limit)
  {
    OverStep(e, limit);
    if AnyOver(rest + [e], limit) {
      var x :| x in rest + [e] && Over(x, limit);
      if x == e {
        var c :| c in Children(e.item) && Over(Entry(c, e.depth + 1), limit);
        assert Entry(c, e.depth + 1) in extended;
      }
    }
    if AnyOver(extended, limit) {
      var x :| x in extended && Over(x, limit);
      if x in rest {
        assert x in rest + [e];
      } else {
        assert x == Entry(x.item, e.depth + 1);
        assert e in rest + [e];
      }
    }
  }
}
