/** The marks on objects that say who manages them: the label that the operator sets on everything it applies
    (pkg/engine/applier.go) and the annotation with which users opt an object out (pkg/overrides/validation.go). */
module Ownership {
  import opened JsonTree

  const MANAGED_BY_LABEL := "platform.kubevirt.io/managed-by"
  const MANAGED_BY_VALUE := "virt-platform-autopilot"
  const MODE_ANNOTATION := "platform.kubevirt.io/mode"

  predicate Labelled(o: Object) { MANAGED_BY_LABEL in Labels(o) && Labels(o)[MANAGED_BY_LABEL] == MANAGED_BY_VALUE }

  predicate IsUnmanaged(o: Object) { HasAnnotation(o, MODE_ANNOTATION, "unmanaged") }

  /** The label, and the annotation, as they stand in the tree. */
  lemma LabelledIff(o: Object)
    ensures Labelled(o) <==>
            && MapReadable(o, "labels")
            && NodeAt(Obj(o), ["metadata", "labels", "platform.kubevirt.io/managed-by"]) ==
               Leaf(Str("virt-platform-autopilot"))
  {
    StringMapEntry(o, "labels", MANAGED_BY_LABEL, MANAGED_BY_VALUE);
  }

  lemma UnmanagedIff(o: Object)
    ensures IsUnmanaged(o) <==>
            && MapReadable(o, "annotations")
            && NodeAt(Obj(o), ["metadata", "annotations", "platform.kubevirt.io/mode"]) == Leaf(Str("unmanaged"))
  {
    StringMapEntry(o, "annotations", MODE_ANNOTATION, "unmanaged");
  }
}
