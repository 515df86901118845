/** How `ApplyTexturesOperator.execute` binds the pre-made material's nodes:
    each UV Map node to the UV map named by its label, each Image Texture
    node to the sub-texture `T_B_` + the last `_`-separated part of its
    label. Which image files exist in the assets folder is given as a set of
    names; a node that finds no match is reported and skipped. */
module MaterialBinding {
  import opened Wrappers
  import opened Directions

  /** `s.split('_')[-1]`: the part of `s` after its last underscore, or all
      of `s` when it has none. */
  function LastSegment(s: string): (r: string)
    ensures |r| <= |s|
    ensures forall j :: 0 <= j < |r| ==> r[j] == s[|s| - |r| + j] && r[j] != '_'
    ensures |r| < |s| ==> s[|s| - |r| - 1] == '_'
  {
    if s == [] then []
    else if s[|s| - 1] == '_' then []
    else LastSegment(s[..|s| - 1]) + [s[|s| - 1]]
  }

  /** `f"T_B_{tag.split('_')[-1]}"`: the image a texture node's label names. */
  function TextureImageName(tag: string): string
  {
    "T_B_" + LastSegment(tag)
  }

  /** The image name is `T_B_` followed by an underscore-free tail of the
      label that is either the whole label or starts right after an
      underscore. */
  lemma TextureImageNameShape(tag: string)
    ensures var r := TextureImageName(tag);
      && |r| >= 4 && r[..4] == "T_B_"
      && '_' !in r[4..] && |r| - 4 <= |tag| && r[4..] == tag[|tag| - (|r| - 4)..]
      && (|r| - 4 < |tag| ==> tag[|tag| - (|r| - 4) - 1] == '_')
  {
    var segment := LastSegment(tag);
    var name := "T_B_" + segment;
    assert name[..4] == "T_B_" && name[4..] == segment;
  }

  /** The last segment after an underscore is exactly what follows it, when
      that part has no underscore of its own. */
  lemma LastSegmentAfterUnderscore(prefix: string, suffix: string)
    requires '_' !in suffix
    ensures LastSegment(prefix + "_" + suffix) == suffix
  {
    var s := prefix + "_" + suffix;
    var n := |suffix|;
    assert s[|s| - n - 1] == '_';
    forall k | |s| - n <= k < |s| ensures s[k] == suffix[k - (|s| - n)] && s[k] != '_' {
      assert suffix[k - (|s| - n)] in suffix;
    }
    TailAfterLastUnderscore(s, LastSegment(s), n);
  }

  /** A tail without underscores that starts right after an underscore (or
      at the start) is the one of length `n` when the last `n` characters
      are underscore-free and preceded by an underscore. */
  lemma TailAfterLastUnderscore(s: string, r: string, n: nat)
    requires n < |s| && s[|s| - n - 1] == '_'
    requires forall k :: |s| - n <= k < |s| ==> s[k] != '_'
    requires |r| <= |s| && forall j :: 0 <= j < |r| ==> r[j] == s[|s| - |r| + j] && r[j] != '_'
    requires |r| < |s| ==> s[|s| - |r| - 1] == '_'
    ensures r == s[|s| - n..]
  {
    forall k | |s| - |r| <= k < |s| ensures s[k] != '_' {
      assert r[k - (|s| - |r|)] == s[k];
    }
    assert |r| == n;
  }

  /** A node labelled `<anything>_<direction>` (such as `T_B_-X` itself or
      `Camera_-X`) is bound to that direction's sub-texture. */
  lemma TextureNameOfDirectionLabel(prefix: string, d: Direction)
    ensures TextureImageName(prefix + "_" + Label(d)) == SlotName(d)
  {
    LastSegmentAfterUnderscore(prefix, Label(d));
  }

  /** `next((uv_map for uv_map in uv_maps if uv_map.name == node.label), None)`:
      the position of the first UV map with that name. */
  function FindUvMap(uvMaps: seq<string>, nodeLabel: string): (r: Option<nat>)
    ensures r.Some? ==> r.value < |uvMaps| && uvMaps[r.value] == nodeLabel
    ensures r.Some? ==> forall j :: 0 <= j < r.value ==> uvMaps[j] != nodeLabel
    ensures r.None? <==> nodeLabel !in uvMaps
  {
    FindUvMapFrom(uvMaps, nodeLabel, 0)
  }

  function FindUvMapFrom(uvMaps: seq<string>, nodeLabel: string, from: nat): (r: Option<nat>)
    requires from <= |uvMaps|
    decreases |uvMaps| - from
    ensures r.Some? ==> from <= r.value < |uvMaps| && uvMaps[r.value] == nodeLabel
    ensures r.Some? ==> forall j :: from <= j < r.value ==> uvMaps[j] != nodeLabel
    ensures r.None? <==> forall j :: from <= j < |uvMaps| ==> uvMaps[j] != nodeLabel
  {
    if from == |uvMaps| then None
    else if uvMaps[from] == nodeLabel then Some(from)
    else FindUvMapFrom(uvMaps, nodeLabel, from + 1)
  }

  /** The loop over the material's UV Map nodes: node i is set to the UV map
      named by its label when the mesh has one; otherwise it is reported and
      left as it was, and the other nodes are bound all the same. */
  method BindUvMapNodes(nodeLabels: seq<string>, uvMaps: seq<string>) returns (bound: seq<Option<string>>)
    ensures |bound| == |nodeLabels|
    ensures forall i :: 0 <= i < |nodeLabels| ==>
      bound[i] == if nodeLabels[i] in uvMaps then Some(nodeLabels[i]) else None
  {
    bound := [];
    for i := 0 to |nodeLabels|
      invariant |bound| == i
      invariant forall j :: 0 <= j < i ==>
        bound[j] == if nodeLabels[j] in uvMaps then Some(nodeLabels[j]) else None
    {
      match FindUvMap(uvMaps, nodeLabels[i])
      case Some(k) => bound := bound + [Some(uvMaps[k])];
      case None => bound := bound + [None];
    }
  }

  /** What a texture node labelled `tag` is bound to: the image its label
      names when that file was saved, otherwise nothing. */
  function ImageBinding(tag: string, savedImages: set<string>): Option<string>
  {
    var name := TextureImageName(tag);
    if name in savedImages then Some(name) else None
  }

  /** The loop over the material's Image Texture nodes: node i gets the
      image its label names when that file was saved; otherwise it is
      reported as missing and the loop goes on. */
  method BindImageNodes(nodeLabels: seq<string>, savedImages: set<string>) returns (bound: seq<Option<string>>)
    ensures |bound| == |nodeLabels|
    ensures forall i {:trigger bound[i]} :: 0 <= i < |nodeLabels| ==> bound[i] == ImageBinding(nodeLabels[i], savedImages)
  {
    bound := [];
    for i := 0 to |nodeLabels|
      invariant |bound| == i
      invariant forall j {:trigger bound[j]} :: 0 <= j < i ==> bound[j] == ImageBinding(nodeLabels[j], savedImages)
    {
      var b := ImageBinding(nodeLabels[i], savedImages);
      ghost var before := bound;
      bound := bound + [b];
      assert forall j :: 0 <= j < i ==> bound[j] == before[j];
    }
  }
}
