/** `get_layer_collection`: a depth-first search of the view layer's tree of
    layer collections for the first one with a given name. */
module LayerCollections {
  import opened Wrappers

  datatype LayerCollection = LayerCollection(name: string, children: seq<LayerCollection>)

  function Size(node: LayerCollection): nat
  {
    1 + SizeAll(node.children)
  }

  function SizeAll(nodes: seq<LayerCollection>): (n: nat)
    ensures nodes != [] ==> n > SizeAll(nodes[0].children) && n > SizeAll(nodes[1..])
  {
    if nodes == [] then 0 else Size(nodes[0]) + SizeAll(nodes[1..])
  }

  /** The loop over `layer_coll.children` with its recursive calls: each
      child is checked by name, then searched below, before the next
      sibling. */
  function SearchLayers(layers: seq<LayerCollection>, collName: string): (r: Option<LayerCollection>)
    decreases SizeAll(layers)
    ensures r.Some? ==> r.value.name == collName
  {
    if layers == [] then None
    else
      var layer := layers[0];
      if layer.name == collName then Some(layer)
      else
        match SearchLayers(layer.children, collName)
        case Some(found) => Some(found)
        case None => SearchLayers(layers[1..], collName)
  }

  /** `get_layer_collection(layer_coll, coll_name)`: the root itself is not
      a candidate, only its descendants; a result is one of them and bears
      the name. */
  function GetLayerCollection(layerColl: LayerCollection, collName: string): (r: Option<LayerCollection>)
    ensures r.Some? ==> r.value.name == collName && r.value in PreOrder(layerColl.children)
  {
    SearchIsFirstInPreOrder(layerColl.children, collName);
    SearchLayers(layerColl.children, collName)
  }

  // ---- Reference: the descendants in depth-first pre-order ----

  /** The nodes of a forest in depth-first pre-order. */
  function PreOrder(layers: seq<LayerCollection>): seq<LayerCollection>
    decreases SizeAll(layers)
  {
    if layers == [] then []
    else [layers[0]] + PreOrder(layers[0].children) + PreOrder(layers[1..])
  }

  /** The first element of `nodes` named `collName`. */
  function FirstNamed(nodes: seq<LayerCollection>, collName: string): (r: Option<LayerCollection>)
    ensures r.Some? ==> exists k :: 0 <= k < |nodes| && nodes[k] == r.value && r.value.name == collName
                                    && forall j :: 0 <= j < k ==> nodes[j].name != collName
    ensures r.None? <==> forall j :: 0 <= j < |nodes| ==> nodes[j].name != collName
  {
    if nodes == [] then None
    else if nodes[0].name == collName then Some(nodes[0])
    else
      var rest := FirstNamed(nodes[1..], collName);
      if rest.Some? then
        ghost var k :| 0 <= k < |nodes| - 1 && nodes[1..][k] == rest.value && rest.value.name == collName
                      && forall j :: 0 <= j < k ==> nodes[1..][j].name != collName;
        assert nodes[k + 1] == rest.value;
        assert forall j :: 0 <= j < k + 1 ==> nodes[j].name != collName by {
          forall j | 0 <= j < k + 1 ensures nodes[j].name != collName {
            if j > 0 { assert nodes[j] == nodes[1..][j - 1]; }
          }
        }
        rest
      else
        assert forall j :: 1 <= j < |nodes| ==> nodes[j] == nodes[1..][j - 1];
        rest
  }

  lemma {:induction false} FirstNamedAppend(a: seq<LayerCollection>, b: seq<LayerCollection>, collName: string)
    ensures FirstNamed(a + b, collName)
         == if FirstNamed(a, collName).Some? then FirstNamed(a, collName) else FirstNamed(b, collName)
  {
    if a != [] {
      assert (a + b)[0] == a[0];
      assert (a + b)[1..] == a[1..] + b;
      FirstNamedAppend(a[1..], b, collName);
    } else {
      assert a + b == b;
    }
  }

  /** The search returns the first node in depth-first pre-order that bears
      the name, and nothing exactly when no node in the forest bears it. */
  lemma {:induction false} SearchIsFirstInPreOrder(layers: seq<LayerCollection>, collName: string)
    decreases SizeAll(layers)
    ensures SearchLayers(layers, collName) == FirstNamed(PreOrder(layers), collName)
  {
    if layers != [] {
      var head, rest := layers[0], layers[1..];
      SearchIsFirstInPreOrder(head.children, collName);
      SearchIsFirstInPreOrder(rest, collName);
      FirstNamedAppend([head] + PreOrder(head.children), PreOrder(rest), collName);
      FirstNamedAppend([head], PreOrder(head.children), collName);
      assert ([head] + PreOrder(head.children))[0] == head;
    }
  }

  /** `get_layer_collection` finds the first descendant of the root in
      depth-first pre-order that bears the name, and returns None exactly
      when no descendant bears it. */
  lemma GetLayerCollectionSpec(layerColl: LayerCollection, collName: string)
    ensures GetLayerCollection(layerColl, collName) == FirstNamed(PreOrder(layerColl.children), collName)
    ensures GetLayerCollection(layerColl, collName).None? <==>
      forall d :: d in PreOrder(layerColl.children) ==> d.name != collName
  {
    SearchIsFirstInPreOrder(layerColl.children, collName);
  }
}
