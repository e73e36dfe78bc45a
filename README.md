# Operator link typing and probe-volume brick subdivision

This project models two small cores of a game engine's rendering and effects editors in Dafny and proves properties of them.

- **Operator link typing** (module `OperatorController`). A polymorphic visual-effect operator's controller is asked two questions when a link is dragged onto one of its inputs:
  - may this link be attempted at all (`CouldLinkMyInputTo`)?
  - which operand types change before the link is made (`WillCreateLink`)?

  Five controller variants answer differently:
  - **Variable**: the base check only.
  - **Unified**: the master slot takes the best affinity type.
  - **Unified-constraint**: a group of strict same-type slots, some of which may instead hold a scalar.
  - **Cascaded**: operands can be removed only while above a minimum count, and an "upcoming" anchor is offered for the next operand.
  - **Uniform**: one node-wide operand type; static slots keep theirs.

  The operator is a class whose `inputSlots` the controller methods update. Each controller method is proved equal to a pure function of the slots before the link. The rules are proved as lemmas about those functions:
  - which slots may change;
  - what they become;
  - that the strict group (or the uniform node) stays on one type;
  - that preparing the same link twice is idempotent.

  The operator family's type catalog is a parameter. It consists of the best affinity type (optional), the matching scalar and slot compatibility.
- **Probe-volume brick subdivision** (module `ProbeVolumePositioning`). A brick of size s covers 3^s cells per axis. One level of subdivision replaces every brick of positive size by those of its 27 candidate children (size s - 1, at offsets `Position3D(3, 3, b) * 3^(s-1)`) that the keep predicate accepts. `SubDivideBricks` repeats this until a level is empty, appending every level to the caller's list.
  - The loops are proved against the functions `NextLevel` and `SubDivideAll`.
  - Termination is proved with the largest brick size as the measure.
  - `Position3D` and `Index3D` are modelled with C#'s truncating `/` and `%` and proved mutually inverse on the grid.

## Model

| member | source | states |
|---|---|---|
| OperatorController.CouldLinkVariable | com.unity.visualeffectgraph/VisualEffectGraph/Editor/GraphView/Elements/Controllers/VFXOperatorController.cs:62-70 | the link is refused when both anchors have the same direction or the node cannot be linked; otherwise it is accepted exactly when a best affinity type exists |
| OperatorController.CouldLinkConstrainedIsMasterVariable | com.unity.visualeffectgraph/VisualEffectGraph/Editor/GraphView/Elements/Controllers/VFXOperatorController.cs:116-139 | the constrained check equals "the input is a master slot and the variable check accepts": it refuses non-master slots, same-direction anchors, unlinkable nodes and a missing best affinity, and the exceptional-scalar branch never changes the answer |
| OperatorController.UnifiedRetype | com.unity.visualeffectgraph/VisualEffectGraph/Editor/GraphView/Elements/Controllers/VFXOperatorController.cs:91-102 | nothing changes for a non-master target or a missing best affinity; otherwise only the target changes, to the best affinity |
| OperatorController.FirstIndexIn | com.unity.visualeffectgraph/VisualEffectGraph/Editor/GraphView/Elements/Controllers/VFXOperatorController.cs:165 | the result is the lowest index of the range that lies in the set, or none when no index in the range does |
| OperatorController.FirstStrictSlot | com.unity.visualeffectgraph/VisualEffectGraph/Editor/GraphView/Elements/Controllers/VFXOperatorController.cs:165 | the slot compared against is the first slot of the strict group; it exists and lies at or before any strict slot, including the target itself |
| OperatorController.ScalarRetype | com.unity.visualeffectgraph/VisualEffectGraph/Editor/GraphView/Elements/Controllers/VFXOperatorController.cs:160-182 | a scalar target's retyping never touches any slot but the target |
| OperatorController.GroupRetype | com.unity.visualeffectgraph/VisualEffectGraph/Editor/GraphView/Elements/Controllers/VFXOperatorController.cs:184-203 | group retyping never touches a slot outside the strict group |
| OperatorController.ConstrainedRetype | com.unity.visualeffectgraph/VisualEffectGraph/Editor/GraphView/Elements/Controllers/VFXOperatorController.cs:147-204 | the constrained rule keeps the number of slots, changes nothing for a non-master target (whether or not it is in the strict group), and never changes a slot that is neither the target nor in the strict group |
| OperatorController.UniformRetype | com.unity.visualeffectgraph/VisualEffectGraph/Editor/GraphView/Elements/Controllers/VFXOperatorController.cs:263-286 | the uniform rule never changes a static slot |
| OperatorController.ConstrainedOutsideGroupIsUnified | com.unity.visualeffectgraph/VisualEffectGraph/Editor/GraphView/Elements/Controllers/VFXOperatorController.cs:154-158 | a target outside the strict group is retyped exactly as by the unified controller |
| OperatorController.ConstrainedScalarTarget | com.unity.visualeffectgraph/VisualEffectGraph/Editor/GraphView/Elements/Controllers/VFXOperatorController.cs:160-182 | for an exceptional-scalar target, the first strict slot exists at or before the target and every other slot is untouched; the target takes the best affinity when the first strict slot already has it; otherwise, when the link is invalid as it stands, it takes the matching scalar's best affinity if there is one; otherwise nothing changes |
| OperatorController.ConstrainedGroupTarget | com.unity.visualeffectgraph/VisualEffectGraph/Editor/GraphView/Elements/Controllers/VFXOperatorController.cs:184-203 | for a strict, non-exceptional target: nothing changes when another such slot is linked and the direct link is possible, or when no best affinity exists; otherwise every strict slot takes the best affinity except exceptional slots already at its matching scalar; slots outside the group never change |
| OperatorController.ConstrainedKeepsGroupConsistent | com.unity.visualeffectgraph/VisualEffectGraph/Editor/GraphView/Elements/Controllers/VFXOperatorController.cs:147-204 | if the strict non-exceptional slots share one type before the link, they share one type after it |
| OperatorController.ConstrainedIdempotent | com.unity.visualeffectgraph/VisualEffectGraph/Editor/GraphView/Elements/Controllers/VFXOperatorController.cs:147-204 | preparing the same link a second time on a constrained operator changes nothing |
| OperatorController.ScalarIdempotent | com.unity.visualeffectgraph/VisualEffectGraph/Editor/GraphView/Elements/Controllers/VFXOperatorController.cs:160-182 | the scalar-target retyping is idempotent, even when the first strict slot is the target itself |
| OperatorController.GroupIdempotent | com.unity.visualeffectgraph/VisualEffectGraph/Editor/GraphView/Elements/Controllers/VFXOperatorController.cs:184-203 | the group retyping is idempotent |
| OperatorController.UniformRetypeShape | com.unity.visualeffectgraph/VisualEffectGraph/Editor/GraphView/Elements/Controllers/VFXOperatorController.cs:263-286 | nothing changes for a non-master or static target or a missing best affinity, or when another input anchor is linked (another slot's own link, or a link on any slot's sub-slot, the target's included) and the direct link is possible; otherwise every non-static slot takes the best affinity and static slots keep their type |
| OperatorController.UniformKeepsConsistentAndIdempotent | com.unity.visualeffectgraph/VisualEffectGraph/Editor/GraphView/Elements/Controllers/VFXOperatorController.cs:263-286 | the non-static slots of a uniform operator stay on one type, and preparing the same link twice changes nothing the second time |
| OperatorController.UnifiedIdempotent | com.unity.visualeffectgraph/VisualEffectGraph/Editor/GraphView/Elements/Controllers/VFXOperatorController.cs:91-102 | preparing the same link a second time on a unified operator changes nothing |
| OperatorController.Operator.constructor | com.unity.visualeffectgraph/VisualEffectGraph/Editor/GraphView/Elements/Controllers/VFXOperatorController.cs:34-40 | the operator holds the given slots and variant |
| OperatorController.Operator.SetOperandType | com.unity.visualeffectgraph/VisualEffectGraph/Editor/GraphView/Elements/Controllers/VFXOperatorController.cs:99 | the operand at the index takes the type; nothing else changes |
| OperatorController.Operator.SetUniformOperandType | com.unity.visualeffectgraph/VisualEffectGraph/Editor/GraphView/Elements/Controllers/VFXOperatorController.cs:283 | every non-static operand takes the type |
| OperatorController.Operator.RemoveOperand | com.unity.visualeffectgraph/VisualEffectGraph/Editor/GraphView/Elements/Controllers/VFXOperatorController.cs:244 | the operand at the index is removed and later operands move down by one |
| OperatorController.UnifiedWillCreateLink | com.unity.visualeffectgraph/VisualEffectGraph/Editor/GraphView/Elements/Controllers/VFXOperatorController.cs:91-102 | the operator's slots become the unified retyping of the slots before the link |
| OperatorController.ConstrainedWillCreateLink | com.unity.visualeffectgraph/VisualEffectGraph/Editor/GraphView/Elements/Controllers/VFXOperatorController.cs:147-204 | the slots become the constrained retyping of the slots before the link; the loop over the strict group sets exactly the group's slots |
| OperatorController.UniformWillCreateLink | com.unity.visualeffectgraph/VisualEffectGraph/Editor/GraphView/Elements/Controllers/VFXOperatorController.cs:263-286 | the slots become the uniform retyping of the slots before the link |
| OperatorController.UpcomingAnchor.constructor | com.unity.visualeffectgraph/VisualEffectGraph/Editor/GraphView/Elements/Controllers/VFXOperatorController.cs:218 | the anchor records its owning controller and visibility |
| OperatorController.AnchorList.constructor | com.unity.visualeffectgraph/VisualEffectGraph/Editor/GraphView/Elements/Controllers/VFXOperatorController.cs:214 | a new anchor list is empty |
| OperatorController.CascadedOperatorController.constructor | com.unity.visualeffectgraph/VisualEffectGraph/Editor/GraphView/Elements/Controllers/VFXOperatorController.cs:207-213 | a new cascaded controller has no upcoming anchor yet |
| OperatorController.CascadedOperatorController.RemoveOperand | com.unity.visualeffectgraph/VisualEffectGraph/Editor/GraphView/Elements/Controllers/VFXOperatorController.cs:230-246 | above the minimal operand count the operand at the index is removed; otherwise nothing changes; a count at or above the minimum stays at or above it |
| OperatorController.CascadedOperatorController.NewInputSet | com.unity.visualeffectgraph/VisualEffectGraph/Editor/GraphView/Elements/Controllers/VFXOperatorController.cs:214-221 | the upcoming anchor is created once, owned by this controller, and the same instance is appended to the list on every call |
| ProbeVolumePositioning.BrickList.constructor | com.unity.render-pipelines.high-definition/Runtime/Lighting/ProbeVolume/ProbeVolumePositioning.cs:12 | the output list holds the given bricks |
| ProbeVolumePositioning.CsDivRemNonNegative | com.unity.render-pipelines.high-definition/Runtime/Lighting/ProbeVolume/ProbeVolumePositioning.cs:81-83 | for a non-negative dividend and positive divisor, C# division and remainder agree with Euclidean ones |
| ProbeVolumePositioning.Position3DNonNegative | com.unity.render-pipelines.high-definition/Runtime/Lighting/ProbeVolume/ProbeVolumePositioning.cs:79-86 | for a non-negative index, Position3D is the Euclidean decomposition of the index, x varying fastest |
| ProbeVolumePositioning.CsDigits | com.unity.render-pipelines.high-definition/Runtime/Lighting/ProbeVolume/ProbeVolumePositioning.cs:79-86 | for a non-negative index and positive extents, the remainder of the index by width, the remainder of its quotient by height, and its quotient by width * height are the Euclidean ones, the last equal to dividing by width and then by height |
| ProbeVolumePositioning.Position3DInGrid | com.unity.render-pipelines.high-definition/Runtime/Lighting/ProbeVolume/ProbeVolumePositioning.cs:79-86 | for positive width and height and a non-negative index, 0 <= x < width, 0 <= y < height and 0 <= z, and z < depth when the index is below width * height * depth |
| ProbeVolumePositioning.Index3DOfPosition3D | com.unity.render-pipelines.high-definition/Runtime/Lighting/ProbeVolume/ProbeVolumePositioning.cs:79-91 | Index3D(w, h, Position3D(w, h, idx)) == idx for every non-negative index |
| ProbeVolumePositioning.Position3DOfIndex3D | com.unity.render-pipelines.high-definition/Runtime/Lighting/ProbeVolume/ProbeVolumePositioning.cs:79-91 | Position3D undoes Index3D on every grid point with non-negative z |
| ProbeVolumePositioning.Pow3 | com.unity.render-pipelines.high-definition/Runtime/Lighting/ProbeVolume/ProbeVolumePositioning.cs:34 | the child edge length 3^n is at least 1 |
| ProbeVolumePositioning.OffsetComponents | com.unity.render-pipelines.high-definition/Runtime/Lighting/ProbeVolume/ProbeVolumePositioning.cs:36-38 | each of the 27 offsets has every component in {0, t, 2t} |
| ProbeVolumePositioning.OffsetsDistinct | com.unity.render-pipelines.high-definition/Runtime/Lighting/ProbeVolume/ProbeVolumePositioning.cs:36-38 | the 27 offsets of one brick are pairwise distinct for a positive edge t |
| ProbeVolumePositioning.ChildShape | com.unity.render-pipelines.high-definition/Runtime/Lighting/ProbeVolume/ProbeVolumePositioning.cs:33-40 | candidate child b has size s - 1 >= 0 and position parent + Position3D(3, 3, b) * 3^(s-1), and differs from every other candidate |
| ProbeVolumePositioning.KeptChildrenMembers | com.unity.render-pipelines.high-definition/Runtime/Lighting/ProbeVolume/ProbeVolumePositioning.cs:36-45 | at most n of the first n candidates are kept, and a brick is kept exactly when it is one of those candidates and the predicate accepts it |
| ProbeVolumePositioning.NextLevelLength | com.unity.render-pipelines.high-definition/Runtime/Lighting/ProbeVolume/ProbeVolumePositioning.cs:28-47 | the next level holds at most 27 bricks per brick of the level |
| ProbeVolumePositioning.NextLevelSound | com.unity.render-pipelines.high-definition/Runtime/Lighting/ProbeVolume/ProbeVolumePositioning.cs:28-47 | every brick of the next level is an accepted candidate child of some positive-size brick of the level |
| ProbeVolumePositioning.NextLevelComplete | com.unity.render-pipelines.high-definition/Runtime/Lighting/ProbeVolume/ProbeVolumePositioning.cs:28-47 | every accepted candidate child of a positive-size brick of the level is in the next level |
| ProbeVolumePositioning.NextLevelMembers | com.unity.render-pipelines.high-definition/Runtime/Lighting/ProbeVolume/ProbeVolumePositioning.cs:28-47 | a brick is in the next level exactly when it is an accepted candidate child of a positive-size brick of the level; the next level has at most 27 bricks per parent |
| ProbeVolumePositioning.NextLevelOfUnitBricks | com.unity.render-pipelines.high-definition/Runtime/Lighting/ProbeVolume/ProbeVolumePositioning.cs:31 | bricks of size <= 0 produce no children |
| ProbeVolumePositioning.SubDivideLevel | com.unity.render-pipelines.high-definition/Runtime/Lighting/ProbeVolume/ProbeVolumePositioning.cs:23-50 | the result is every brick's accepted candidates, in parent order and then candidate order |
| ProbeVolumePositioning.Height | com.unity.render-pipelines.high-definition/Runtime/Lighting/ProbeVolume/ProbeVolumePositioning.cs:16 | the height bounds every brick's height and is zero exactly for an empty level |
| ProbeVolumePositioning.HeightBelow | com.unity.render-pipelines.high-definition/Runtime/Lighting/ProbeVolume/ProbeVolumePositioning.cs:16 | a bound on every brick's height bounds the level's height |
| ProbeVolumePositioning.HeightDecreases | com.unity.render-pipelines.high-definition/Runtime/Lighting/ProbeVolume/ProbeVolumePositioning.cs:16-20 | every non-empty level is strictly higher than the level it subdivides into, so the loop terminates |
| ProbeVolumePositioning.SubDivideAllSizes | com.unity.render-pipelines.high-definition/Runtime/Lighting/ProbeVolume/ProbeVolumePositioning.cs:12-21 | every appended brick has size >= 0 and lies below the largest input size |
| ProbeVolumePositioning.SubDivideStep | com.unity.render-pipelines.high-definition/Runtime/Lighting/ProbeVolume/ProbeVolumePositioning.cs:16-20 | one iteration lowers the height and keeps "output so far, then all remaining levels" equal to the final output |
| ProbeVolumePositioning.AppendedSizes | com.unity.render-pipelines.high-definition/Runtime/Lighting/ProbeVolume/ProbeVolumePositioning.cs:19 | every brick appended after the prior contents has size >= 0 |
| ProbeVolumePositioning.SubDivideBricks | com.unity.render-pipelines.high-definition/Runtime/Lighting/ProbeVolume/ProbeVolumePositioning.cs:12-21 | the output list becomes its prior contents followed by every level in turn, and only bricks of size >= 0 are appended |

## Left out

- `IntersectsProbeVolume` (com.unity.render-pipelines.high-definition/Runtime/Lighting/ProbeVolume/ProbeVolumePositioning.cs:61-77) is not modelled. It works on floating-point matrices and bounds and on the scene-wide probe-volume manager. `ShouldKeepBrick` is therefore membership in an arbitrary set of accepted bricks (`KeepSet.intersecting`), which stands for the transform together with the scene's volumes.
- Pow3: `Mathf.Pow(3, n)` is a floating-point power cast to int; the model uses the exact integer power.
- 32-bit overflow of the index arithmetic and of brick positions is not modelled; integers are unbounded.
- The type catalog is not modelled: `GetBestAffinityType`, `GetMatchingScalar`, both `CanLink` calls, `CanLinkToNode`, `IsMasterSlot` and `HasLink` are parameters or slot fields. The matching scalar is assumed always to exist; a null result is not modelled. The two `CanLink` directions are one predicate.
- Operator.SetUniformOperandType: the uniform operator's `SetOperandType(Type)` is not part of this model; it is assumed to retype every slot outside `staticSlotIndex`.
- Operator.SetOperandType: the unified operator's `SetOperandType(int, Type)` is not part of this model; it is assumed to retype only the operand at the index and to keep every slot's master flag and links. The idempotence and consistency lemmas rely on those flags and links staying as they were.
- Operator.RemoveOperand: the cascaded operator's `RemoveOperand(int)` is not part of this model; it is assumed to delete the operand at the index. `operandCount` is taken to be the number of input slots.
- The uniform controller's input anchors (`inputPorts`) are taken to be one anchor per slot and one per sub-slot, hidden or not; the model records per slot whether the slot itself and whether any of its sub-slots is linked.
- Slots are identified by index. `GetSlotIndex`, the reassignment of the `ref myInput` handle after a retype, and the comparison of slot objects by reference are index arithmetic in the model.
- `OnEdgeGoingToBeRemoved` and `RemoveOperand(anchor)` (com.unity.visualeffectgraph/VisualEffectGraph/Editor/GraphView/Elements/Controllers/VFXOperatorController.cs:223-238) are not modelled. The first calls the base controller's `OnEdgeGoingToBeRemoved`, which is not part of this model, and both then translate an anchor to an index and forward to `RemoveOperand(int)`; only the latter is modelled.
- OperatorController.ConstrainedWillCreateLink requires every index of the strict group to name an existing slot (`Operator.Valid`); the source indexes the slots with it unchecked.
- Anchor construction, display typing and the editor UI are not modelled.
- AbstractMaterialGraphEditWindow.cs and UVNode.cs are not part of this model: they are editor-window lifecycle, file I/O and shader-text generation.
