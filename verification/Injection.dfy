/**
 * Copy-on-write injection of the run id into a call's options object. Nodes are heap objects,
 * so the options may share structure or contain cycles.
 */
module Injection {
  import opened Confidence
  import Text

  /** An object's own enumerable properties. */
  class Node {
    var fields: map<string, Value>

    constructor (contents: map<string, Value>)
      ensures fields == contents
    {
      fields := contents;
    }
  }

  /** Other is every value without properties of interest: undefined, null, numbers, functions. */
  datatype Value = Str(text: string) | Obj(node: Node) | Arr(node: Node) | Other

  /** The properties that survive a shallow copy: a plain object's own, otherwise none. */
  ghost function Spread(v: Value): (m: map<string, Value>)
    reads if v.Obj? then {v.node} else {}
  {
    if v.Obj? then v.node.fields else map[]
  }

  ghost function Get(m: map<string, Value>, key: string): (v: Value) {
    if key in m then m[key] else Other
  }

  /** What a reader finds by following a path of property names; None when a step is missing. */
  ghost function Read(v: Value, path: seq<string>): (r: Option<Value>)
    reads *
    decreases |path|
  {
    if path == [] then Some(v)
    else if (v.Obj? || v.Arr?) && path[0] in v.node.fields then Read(v.node.fields[path[0]], path[1..])
    else None
  }

  method ShallowCopyNode(v: Value) returns (copy: Node)
    ensures fresh(copy) && copy.fields == Spread(v) == old(Spread(v))
  {
    if v.Obj? {
      copy := new Node(v.node.fields);
    } else {
      copy := new Node(map[]);
    }
  }

  /** The values met while walking down a path: each the field of the previous one's copy. */
  ghost function Originals(options: Value, path: seq<string>): (olds: seq<Value>)
    reads *
    ensures |olds| == |path| + 1 && olds[0] == options
    ensures Walk(olds, path, Nodes(olds))
  {
    if path == [] then [options]
    else
      var n := |path| - 1;
      var front := Originals(options, path[..n]);
      front + [Get(Spread(front[n]), path[n])]
  }

  ghost function Nodes(olds: seq<Value>): (s: set<Node>) {
    set v | v in olds && v.Obj? :: v.node
  }

  ghost predicate Walk(olds: seq<Value>, path: seq<string>, were: set<Node>)
    reads were
  {
    && |olds| == |path| + 1
    && (forall j :: 0 <= j < |olds| && olds[j].Obj? ==> olds[j].node in were)
    && forall j :: 0 <= j < |path| ==> olds[j + 1] == Get(Spread(olds[j]), path[j])
  }

  /** The first nodes of the copied spine: distinct, each its original with the next one linked in. */
  ghost predicate Linked(spine: seq<Node>, olds: seq<Value>, path: seq<string>, were: set<Node>)
    requires |path| < |olds|
    requires forall j :: 0 <= j < |olds| && olds[j].Obj? ==> olds[j].node in were
    reads were, spine
  {
    && 0 < |spine| <= |path|
    && (forall j :: 0 <= j < |spine| ==> spine[j] !in were)
    && (forall j, k :: 0 <= j < k < |spine| ==> spine[j] != spine[k])
    && (forall j :: 0 <= j < |spine| - 1 ==>
          spine[j].fields == Spread(olds[j])[path[j] := Obj(spine[j + 1])])
    && spine[|spine| - 1].fields == Spread(olds[|spine| - 1])
  }

  /** The finished spine: the last node carries the run id. */
  ghost predicate Merged(spine: seq<Node>, olds: seq<Value>, path: seq<string>, runId: string,
                         were: set<Node>)
    reads spine, were
  {
    && Walk(olds, path, were) && |spine| == |path|
    && (forall j :: 0 <= j < |path| - 1 ==>
          spine[j].fields == Spread(olds[j])[path[j] := Obj(spine[j + 1])])
    && (path != [] ==>
          var last := |path| - 1;
          spine[last].fields == Spread(olds[last])[path[last] := Str(runId)])
  }

  /** Replace the cursor's field on the path by a shallow copy of itself, and move there. */
  method Descend(cursor: Node, segment: string, ghost spine: seq<Node>, ghost olds: seq<Value>,
                 ghost path: seq<string>, ghost were: set<Node>) returns (child: Node)
    requires Walk(olds, path, were) && Linked(spine, olds, path, were)
    requires |spine| < |path| && cursor == spine[|spine| - 1] && segment == path[|spine| - 1]
    modifies cursor
    ensures fresh(child)
    ensures Walk(olds, path, were) && Linked(spine + [child], olds, path, were)
  {
    var inner := if segment in cursor.fields then cursor.fields[segment] else Other;
    child := ShallowCopyNode(inner);
    cursor.fields := cursor.fields[segment := Obj(child)];
  }

  /** The walk: copies every node down the path, leaving the final field to the caller. */
  method CopySpine(options: Value, path: seq<string>, ghost olds: seq<Value>, ghost were: set<Node>)
    returns (root: Node, cursor: Node, ghost spine: seq<Node>)
    requires path != [] && Walk(olds, path, were) && olds[0] == options
    ensures |spine| == |path| && spine[0] == root && spine[|path| - 1] == cursor
    ensures forall j :: 0 <= j < |path| ==> fresh(spine[j])
    ensures Walk(olds, path, were) && Linked(spine, olds, path, were)
  {
    root := ShallowCopyNode(options);
    cursor := root;
    spine := [root];
    var i := 0;
    while i < |path| - 1
      invariant 0 <= i < |path| && |spine| == i + 1 && spine[0] == root && spine[i] == cursor
      invariant forall j :: 0 <= j <= i ==> fresh(spine[j])
      invariant Walk(olds, path, were) && Linked(spine, olds, path, were)
    {
      cursor := Descend(cursor, path[i], spine, olds, path, were);
      spine := spine + [cursor];
      i := i + 1;
    }
  }

  /**
   * No modifies clause: no object that existed before the call is written. Every node on the
   * spine is new and keeps all fields of its original except the one on the path.
   */
  method MergePath(options: Value, path: seq<string>, runId: string)
    returns (merged: Value, ghost spine: seq<Node>, ghost olds: seq<Value>)
    ensures path == [] ==> merged == options
    ensures |spine| == |path| && (path != [] ==> merged == Obj(spine[0]))
    ensures forall j :: 0 <= j < |path| ==> fresh(spine[j])
    ensures olds == old(Originals(options, path))
    ensures Merged(spine, olds, path, runId, Nodes(olds))
  {
    olds := Originals(options, path);
    if path == [] {
      return options, [], olds;
    }
    var root, cursor;
    root, cursor, spine := CopySpine(options, path, olds, Nodes(olds));
    cursor.fields := cursor.fields[path[|path| - 1] := Str(runId)];
    merged := Obj(root);
  }

  /** The result reads the run id at the path. */
  lemma {:induction false} RunIdReads(spine: seq<Node>, olds: seq<Value>, path: seq<string>, runId: string,
                                      j: nat)
    requires Merged(spine, olds, path, runId, Nodes(olds)) && j < |path|
    ensures Read(Obj(spine[j]), path[j..]) == Some(Str(runId))
    decreases |path| - j
  {
    ReadStep(Obj(spine[j]), path, j);
    if j + 1 < |path| {
      RunIdReads(spine, olds, path, runId, j + 1);
    } else {
      assert Read(Str(runId), []) == Some(Str(runId));
    }
  }

  /** Two paths that part at step k. */
  ghost predicate PartAt(path: seq<string>, other: seq<string>, k: nat) {
    && k < |path| && k < |other| && other[k] != path[k]
    && forall i :: 0 <= i < k ==> other[i] == path[i]
  }

  ghost predicate ArrayBetween(olds: seq<Value>, j: nat, k: nat)
    requires k < |olds|
  {
    exists i :: j <= i <= k && olds[i].Arr?
  }

  /**
   * Every path that parts from the injected one reads what the original reads, except below an
   * array on the spine: the copy of an array is an empty object.
   */
  lemma {:induction false} DivergentReads(spine: seq<Node>, olds: seq<Value>, path: seq<string>, runId: string,
                                          other: seq<string>, k: nat, j: nat)
    requires Merged(spine, olds, path, runId, Nodes(olds))
    requires PartAt(path, other, k) && j <= k
    ensures Read(Obj(spine[j]), other[j..]) ==
            if ArrayBetween(olds, j, k) then None else Read(olds[j], other[j..])
    decreases k - j
  {
    ReadStep(Obj(spine[j]), other, j);
    ReadStep(olds[j], other, j);
    if j < k {
      DivergentReads(spine, olds, path, runId, other, k, j + 1);
      ReadStep(Other, other, j + 1);
      assert ArrayBetween(olds, j, k) <==> olds[j].Arr? || ArrayBetween(olds, j + 1, k);
      assert olds[j + 1] == Get(Spread(olds[j]), path[j]);
      assert Read(Obj(spine[j]), other[j..]) == Read(Obj(spine[j + 1]), other[j + 1..]);
    } else {
      assert ArrayBetween(olds, j, k) <==> olds[j].Arr?;
      SiblingKept(spine, olds, path, runId, j, other[j]);
    }
  }

  /** Every field off the path keeps its value or reference; no field appears or disappears. */
  lemma SiblingKept(spine: seq<Node>, olds: seq<Value>, path: seq<string>, runId: string, j: nat, key: string)
    requires Merged(spine, olds, path, runId, Nodes(olds)) && j < |path| && key != path[j]
    ensures key in spine[j].fields <==> key in Spread(olds[j])
    ensures key in spine[j].fields ==> spine[j].fields[key] == Spread(olds[j])[key]
  {
    if j < |path| - 1 {
      assert spine[j].fields == Spread(olds[j])[path[j] := Obj(spine[j + 1])];
    } else {
      assert spine[j].fields == Spread(olds[j])[path[j] := Str(runId)];
    }
  }

  lemma ReadStep(v: Value, path: seq<string>, j: nat)
    requires j < |path|
    ensures Read(v, path[j..]) ==
            if (v.Obj? || v.Arr?) && path[j] in v.node.fields
            then Read(v.node.fields[path[j]], path[j + 1..]) else None
    ensures j + 1 == |path| ==> path[j + 1..] == []
  {
    assert path[j..][1..] == path[j + 1..];
  }

  /**
   * The argument a wrapped call receives. Without an active run it is the caller's own; with one
   * it reads the run id at the declared path and, on every path that parts from it, what the
   * caller's argument reads, unless an array on the way was replaced.
   */
  method InjectRunId(options: Value, injectInto: string, active: Option<string>) returns (argument: Value)
    ensures active.None? ==> argument == options
    ensures active.Some? ==> Read(argument, Text.Split(injectInto, '.')) == Some(Str(active.value))
    ensures active.Some? ==>
              forall other, k | PartAt(Text.Split(injectInto, '.'), other, k) ::
                Read(argument, other) ==
                if ArrayBetween(old(Originals(options, Text.Split(injectInto, '.'))), 0, k) then None
                else Read(options, other)
  {
    if active.None? {
      return options;
    }
    var path := Text.Split(injectInto, '.');
    ghost var spine, olds;
    argument, spine, olds := MergePath(options, path, active.value);
    RunIdReads(spine, olds, path, active.value, 0);
    assert path[0..] == path;
    forall other, k | PartAt(path, other, k)
      ensures Read(argument, other) == if ArrayBetween(olds, 0, k) then None else Read(options, other)
    {
      assert other[0..] == other;
      DivergentReads(spine, olds, path, active.value, other, k, 0);
    }
  }
}
