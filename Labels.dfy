/** The label catalog: the fixed, ordered label names and their 1-based category IDs.
    The order is a wire-format contract (COCO `category_id`, YOLO class = ID - 1). */
module Labels {
  import opened Wrappers

  /** `LABEL_OPTIONS`, in catalog order. */
  const LabelOptions: seq<string> := ["TITLE", "H1", "H2", "H3", "H4", "BODY"]

  /** `LABEL_MAP`: each catalog name to its position plus one. */
  const LabelMap: map<string, nat> :=
    map["TITLE" := 1, "H1" := 2, "H2" := 3, "H3" := 4, "H4" := 5, "BODY" := 6]

  /** `LABEL_MAP[name]`, which raises for a name outside the catalog. */
  function LabelId(name: string): (id: Option<nat>)
    ensures id.Some? <==> name in LabelOptions
    ensures id.Some? ==> 1 <= id.value <= |LabelOptions| && LabelOptions[id.value - 1] == name
  {
    if name in LabelMap then Some(LabelMap[name]) else None
  }

  /** `LABEL_MAP` is the enumeration of `LABEL_OPTIONS` from 1: position k maps to k + 1,
      and it has no other keys. */
  lemma LabelMapEnumeratesOptions()
    ensures forall name :: name in LabelMap <==> name in LabelOptions
    ensures forall k :: 0 <= k < |LabelOptions| ==> LabelMap[LabelOptions[k]] == k + 1
  {
    assert LabelOptions[0] == "TITLE" && LabelOptions[5] == "BODY";
  }

  /** Distinct catalog names have distinct IDs. */
  lemma LabelIdInjective(a: string, b: string)
    requires LabelId(a).Some? && LabelId(a) == LabelId(b)
    ensures a == b
  {
  }
}
