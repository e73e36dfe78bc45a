/** Link-time type affinity of polymorphic visual-effect operators. When a link is
    dragged onto an operator input, the operator's controller decides whether the link
    may be attempted and which operand types to change before the link is made. The
    operator family's type catalog (best affinity, matching scalar, slot compatibility)
    is abstract. Slots are identified by their index in the operator's input list. */
module OperatorController {

  datatype Option<T> = None | Some(value: T)

  /** The value types carried by numeric operator slots. */
  datatype ValueType = Float | Int | Uint | Bool | Vector2 | Vector3 | Vector4

  datatype Direction = Input | Output

  /** An input slot of an operator: its current type, whether it is a master slot,
      whether it has a link of its own and whether one of its sub-slots has one. */
  datatype Slot = Slot(valueType: ValueType, isMaster: bool, linked: bool, subSlotLinked: bool)
  {
    /** VFXSlot.HasLink: with `recursive`, a link on a sub-slot counts too. */
    predicate HasLink(recursive: bool)
    {
      linked || (recursive && subSlotLinked)
    }
  }

  /** The operator family's type catalog, external to the controllers.
      `bestAffinity` is GetBestAffinityType (None for a null result); `matchingScalar` is
      GetMatchingScalar; `canLink(i, o)` says whether an input slot of type i and an output
      of type o accept each other as they are (both CanLink calls). */
  datatype Catalog = Catalog(
    bestAffinity: ValueType -> Option<ValueType>,
    matchingScalar: ValueType -> ValueType,
    canLink: (ValueType, ValueType) -> bool)

  /** What CouldLinkMyInputTo sees of a proposed link: the two anchors' directions, the
      other anchor's port type and component count, and whether my input can link to
      the other anchor's node (CanLinkToNode). */
  datatype LinkAttempt = LinkAttempt(
    myDirection: Direction,
    otherDirection: Direction,
    otherPortType: ValueType,
    otherComponentCount: nat,
    canLinkToNode: bool)

  /** The polymorphism variant of an operator, with its variant-specific index sets. */
  datatype OperatorKind =
    | Unified
    | UnifiedConstrained(strictSameTypeSlotIndex: set<nat>, allowExceptionalScalarSlotIndex: set<nat>)
    | Cascaded(minimalOperandCount: nat)
    | Uniform(staticSlotIndex: set<nat>)

  // ---------------------------------------------------------------------------
  // CouldLinkMyInputTo
  // ---------------------------------------------------------------------------

  /** VFXVariableOperatorController.CouldLinkMyInputTo (also used by the Unified,
      Cascaded and Uniform controllers). */
  function CouldLinkVariable(attempt: LinkAttempt, catalog: Catalog): (r: bool)
    ensures r ==> attempt.otherDirection != attempt.myDirection && attempt.canLinkToNode
    ensures attempt.otherDirection != attempt.myDirection && attempt.canLinkToNode
      ==> (r <==> catalog.bestAffinity(attempt.otherPortType).Some?)
  {
    if attempt.otherDirection == attempt.myDirection then false
    else if !attempt.canLinkToNode then false
    else catalog.bestAffinity(attempt.otherPortType) != None
  }

  /** VFXUnifiedConstraintOperatorController.CouldLinkMyInputTo for the input at `inputIndex`. */
  function CouldLinkConstrained(slots: seq<Slot>, allowExceptionalScalarSlotIndex: set<nat>,
                                inputIndex: nat, attempt: LinkAttempt, catalog: Catalog): (r: bool)
    requires inputIndex < |slots|
  {
    if !slots[inputIndex].isMaster then false
    else if attempt.otherDirection == attempt.myDirection then false
    else if !attempt.canLinkToNode then false
    else
      var bestAffinityType := catalog.bestAffinity(attempt.otherPortType);
      if bestAffinityType == None then false
      else if inputIndex in allowExceptionalScalarSlotIndex && attempt.otherComponentCount != 0 then true
      else catalog.bestAffinity(attempt.otherPortType) != None
  }

  /** The constrained controller accepts exactly what the variable controller accepts,
      restricted to master slots: the exceptional-scalar branch never changes the answer. */
  lemma CouldLinkConstrainedIsMasterVariable(slots: seq<Slot>, allowExceptionalScalarSlotIndex: set<nat>,
                                             inputIndex: nat, attempt: LinkAttempt, catalog: Catalog)
    requires inputIndex < |slots|
    ensures CouldLinkConstrained(slots, allowExceptionalScalarSlotIndex, inputIndex, attempt, catalog)
      == (slots[inputIndex].isMaster && CouldLinkVariable(attempt, catalog))
  {
  }

  // ---------------------------------------------------------------------------
  // Retyping, as functions of the slots before the link
  // ---------------------------------------------------------------------------

  /** Slot `index` with its type changed to t; the operator's SetOperandType(index, t). */
  function Retyped(slots: seq<Slot>, index: nat, t: ValueType): seq<Slot>
    requires index < |slots|
  {
    slots[index := slots[index].(valueType := t)]
  }

  /** VFXUnifiedOperatorControllerBase.WillCreateLink: the slots after the master slot
      `target` is prepared for a link from an output of type `otherType`. */
  function UnifiedRetype(slots: seq<Slot>, target: nat, otherType: ValueType, catalog: Catalog): (r: seq<Slot>)
    requires target < |slots|
    ensures |r| == |slots|
    ensures forall i :: 0 <= i < |slots| && i != target ==> r[i] == slots[i]
    ensures !slots[target].isMaster || catalog.bestAffinity(otherType).None? ==> r == slots
    ensures slots[target].isMaster && catalog.bestAffinity(otherType).Some?
      ==> r[target] == slots[target].(valueType := catalog.bestAffinity(otherType).value)
  {
    if !slots[target].isMaster then slots
    else
      match catalog.bestAffinity(otherType)
      case None => slots
      case Some(bestAffinityType) => Retyped(slots, target, bestAffinityType)
  }

  /** Every index of the strict same-type group names an input slot. */
  predicate StrictInRange(slots: seq<Slot>, strictSameTypeSlotIndex: set<nat>)
  {
    forall i :: i in strictSameTypeSlotIndex ==> i < |slots|
  }

  /** The lowest index in [from, n) that belongs to `indices`, if any. */
  function FirstIndexIn(n: nat, indices: set<nat>, from: nat): (r: Option<nat>)
    decreases n - from
    ensures r.Some? ==> (from <= r.value < n && r.value in indices
                          && forall j :: from <= j < r.value ==> j !in indices)
    ensures r.None? ==> forall j :: from <= j < n ==> j !in indices
  {
    if from >= n then None
    else if from in indices then Some(from)
    else FirstIndexIn(n, indices, from + 1)
  }

  /** The first input slot whose index is in the strict group (FirstOrDefault at
      VFXOperatorController.cs:165). It may be the target slot itself. */
  function FirstStrictSlot(slots: seq<Slot>, strictSameTypeSlotIndex: set<nat>): (r: Option<nat>)
    ensures r.Some? ==> r.value < |slots| && r.value in strictSameTypeSlotIndex
    ensures forall j :: 0 <= j < |slots| && j in strictSameTypeSlotIndex ==> r.Some? && r.value <= j
  {
    FirstIndexIn(|slots|, strictSameTypeSlotIndex, 0)
  }

  /** Retyping of an exceptional-scalar target: only the target may change. */
  function ScalarRetype(slots: seq<Slot>, strictSameTypeSlotIndex: set<nat>, target: nat,
                        otherType: ValueType, catalog: Catalog): (r: seq<Slot>)
    requires target < |slots|
    ensures |r| == |slots|
    ensures forall i :: 0 <= i < |slots| && i != target ==> r[i] == slots[i]
  {
    var bestAffinityType := catalog.bestAffinity(otherType);
    var otherSlotWithConstraint := FirstStrictSlot(slots, strictSameTypeSlotIndex);
    if otherSlotWithConstraint.None?
       || Some(slots[otherSlotWithConstraint.value].valueType) == bestAffinityType
    then
      // The group already has the offered type: the target takes it as well. (No strict
      // slot at all cannot happen here, as the target itself is strict.)
      match bestAffinityType
      case Some(t) => Retyped(slots, target, t)
      case None => slots
    else if !catalog.canLink(slots[target].valueType, otherType) then
      // The link is invalid as things are: the target takes the matching scalar's affinity.
      match catalog.bestAffinity(catalog.matchingScalar(otherType))
      case Some(s) => Retyped(slots, target, s)
      case None => slots
    else slots
  }

  /** Some strict, non-exceptional slot other than the target has a link (own or sub-slot). */
  predicate OtherStrictSlotLinked(slots: seq<Slot>, strictSameTypeSlotIndex: set<nat>,
                                  allowExceptionalScalarSlotIndex: set<nat>, target: nat)
  {
    exists i :: 0 <= i < |slots| && i != target && slots[i].HasLink(true)
      && i in strictSameTypeSlotIndex && i !in allowExceptionalScalarSlotIndex
  }

  /** Slot i after the strict group is set to t: an exceptional slot already holding the
      matching scalar of t keeps its type. */
  function GroupSlot(slot: Slot, i: nat, strictSameTypeSlotIndex: set<nat>,
                     allowExceptionalScalarSlotIndex: set<nat>, t: ValueType, catalog: Catalog): Slot
  {
    if i in strictSameTypeSlotIndex
       && (i !in allowExceptionalScalarSlotIndex || catalog.matchingScalar(t) != slot.valueType)
    then slot.(valueType := t)
    else slot
  }

  /** The strict group retyped to t (the loop at VFXOperatorController.cs:195-199). */
  function RetypeGroup(slots: seq<Slot>, strictSameTypeSlotIndex: set<nat>,
                       allowExceptionalScalarSlotIndex: set<nat>, t: ValueType, catalog: Catalog): seq<Slot>
  {
    seq(|slots|, i requires 0 <= i < |slots| =>
      GroupSlot(slots[i], i, strictSameTypeSlotIndex, allowExceptionalScalarSlotIndex, t, catalog))
  }

  /** Retyping of a strict, non-exceptional target. */
  function GroupRetype(slots: seq<Slot>, strictSameTypeSlotIndex: set<nat>,
                       allowExceptionalScalarSlotIndex: set<nat>, target: nat,
                       otherType: ValueType, catalog: Catalog): (r: seq<Slot>)
    requires target < |slots|
    ensures |r| == |slots|
    ensures forall i :: 0 <= i < |slots| && i !in strictSameTypeSlotIndex ==> r[i] == slots[i]
  {
    var hasLinks := OtherStrictSlotLinked(slots, strictSameTypeSlotIndex, allowExceptionalScalarSlotIndex, target);
    var linkPossible := catalog.canLink(slots[target].valueType, otherType);
    if !hasLinks || !linkPossible then
      match catalog.bestAffinity(otherType)
      case Some(t) => RetypeGroup(slots, strictSameTypeSlotIndex, allowExceptionalScalarSlotIndex, t, catalog)
      case None => slots
    else slots
  }

  /** VFXUnifiedConstraintOperatorController.WillCreateLink. */
  function ConstrainedRetype(slots: seq<Slot>, strictSameTypeSlotIndex: set<nat>,
                             allowExceptionalScalarSlotIndex: set<nat>, target: nat,
                             otherType: ValueType, catalog: Catalog): (r: seq<Slot>)
    requires target < |slots|
    ensures |r| == |slots|
    ensures !slots[target].isMaster ==> r == slots
    ensures forall i :: 0 <= i < |slots| && i != target && i !in strictSameTypeSlotIndex ==> r[i] == slots[i]
  {
    if !slots[target].isMaster then slots
    else if target !in strictSameTypeSlotIndex then UnifiedRetype(slots, target, otherType, catalog)
    else if target in allowExceptionalScalarSlotIndex then
      ScalarRetype(slots, strictSameTypeSlotIndex, target, otherType, catalog)
    else GroupRetype(slots, strictSameTypeSlotIndex, allowExceptionalScalarSlotIndex, target, otherType, catalog)
  }

  /** Every slot outside `staticSlotIndex` set to t; the uniform operator's SetOperandType(t). */
  function RetypeNonStatic(slots: seq<Slot>, staticSlotIndex: set<nat>, t: ValueType): seq<Slot>
  {
    seq(|slots|, i requires 0 <= i < |slots| =>
      if i in staticSlotIndex then slots[i] else slots[i].(valueType := t))
  }

  /** Some input anchor other than the target's has a link of its own. The input anchors
      are every slot and every sub-slot, so a linked sub-slot counts, also one of the target. */
  predicate OtherInputLinked(slots: seq<Slot>, target: nat)
  {
    exists i :: 0 <= i < |slots| && ((i != target && slots[i].HasLink(false)) || slots[i].subSlotLinked)
  }

  /** VFXUniformOperatorController.WillCreateLink. */
  function UniformRetype(slots: seq<Slot>, staticSlotIndex: set<nat>, target: nat,
                         otherType: ValueType, catalog: Catalog): (r: seq<Slot>)
    requires target < |slots|
    ensures |r| == |slots|
    ensures forall i :: 0 <= i < |slots| && i in staticSlotIndex ==> r[i] == slots[i]
  {
    if !slots[target].isMaster then slots
    else
      var hasLink := OtherInputLinked(slots, target);
      if target in staticSlotIndex then slots
      else
        var linkImpossibleNow := !catalog.canLink(slots[target].valueType, otherType);
        match catalog.bestAffinity(otherType)
        case Some(t) =>
          if !hasLink || linkImpossibleNow then RetypeNonStatic(slots, staticSlotIndex, t) else slots
        case None => slots
  }

  // ---------------------------------------------------------------------------
  // Properties of the retyping rules
  // ---------------------------------------------------------------------------

  /** A target outside the strict group is handled exactly as by the unified controller. */
  lemma ConstrainedOutsideGroupIsUnified(slots: seq<Slot>, strictSameTypeSlotIndex: set<nat>,
                                         allowExceptionalScalarSlotIndex: set<nat>, target: nat,
                                         otherType: ValueType, catalog: Catalog)
    requires target < |slots| && target !in strictSameTypeSlotIndex
    ensures ConstrainedRetype(slots, strictSameTypeSlotIndex, allowExceptionalScalarSlotIndex, target, otherType, catalog)
      == UnifiedRetype(slots, target, otherType, catalog)
  {
  }

  /** An exceptional-scalar target: all other slots are untouched; the target takes the
      best affinity when the first strict slot already has it, and otherwise, when the
      link is invalid as it stands, the best affinity of the matching scalar. */
  lemma ConstrainedScalarTarget(slots: seq<Slot>, strictSameTypeSlotIndex: set<nat>,
                                allowExceptionalScalarSlotIndex: set<nat>, target: nat,
                                otherType: ValueType, catalog: Catalog)
    requires target < |slots| && slots[target].isMaster
    requires target in strictSameTypeSlotIndex && target in allowExceptionalScalarSlotIndex
    ensures var r := ConstrainedRetype(slots, strictSameTypeSlotIndex, allowExceptionalScalarSlotIndex,
                                       target, otherType, catalog);
      var first := FirstStrictSlot(slots, strictSameTypeSlotIndex);
      var best := catalog.bestAffinity(otherType);
      var bestScalar := catalog.bestAffinity(catalog.matchingScalar(otherType));
      && first.Some? && first.value <= target
      && (forall i :: 0 <= i < |slots| && i != target ==> r[i] == slots[i])
      && (Some(slots[first.value].valueType) == best ==> r[target] == slots[target].(valueType := best.value))
      && (Some(slots[first.value].valueType) != best && !catalog.canLink(slots[target].valueType, otherType)
          ==> r[target] == if bestScalar.Some? then slots[target].(valueType := bestScalar.value) else slots[target])
      && (Some(slots[first.value].valueType) != best && catalog.canLink(slots[target].valueType, otherType)
          ==> r == slots)
  {
  }

  /** A strict, non-exceptional target: if another strict, non-exceptional slot is linked
      and the direct link is possible, nothing changes; otherwise, with a best affinity t,
      every strict slot takes t except exceptional slots already at t's matching scalar.
      Slots outside the group never change. */
  lemma ConstrainedGroupTarget(slots: seq<Slot>, strictSameTypeSlotIndex: set<nat>,
                               allowExceptionalScalarSlotIndex: set<nat>, target: nat,
                               otherType: ValueType, catalog: Catalog)
    requires target < |slots| && slots[target].isMaster
    requires target in strictSameTypeSlotIndex && target !in allowExceptionalScalarSlotIndex
    ensures var r := ConstrainedRetype(slots, strictSameTypeSlotIndex, allowExceptionalScalarSlotIndex,
                                       target, otherType, catalog);
      var retype := !OtherStrictSlotLinked(slots, strictSameTypeSlotIndex, allowExceptionalScalarSlotIndex, target)
                    || !catalog.canLink(slots[target].valueType, otherType);
      && (forall i :: 0 <= i < |slots| && i !in strictSameTypeSlotIndex ==> r[i] == slots[i])
      && (!retype || catalog.bestAffinity(otherType).None? ==> r == slots)
      && (retype && catalog.bestAffinity(otherType).Some? ==>
            var t := catalog.bestAffinity(otherType).value;
            && r[target].valueType == t
            && forall i :: 0 <= i < |slots| && i in strictSameTypeSlotIndex ==>
                 r[i] == if i in allowExceptionalScalarSlotIndex && catalog.matchingScalar(t) == slots[i].valueType
                         then slots[i] else slots[i].(valueType := t))
  {
  }

  /** The strict, non-exceptional slots of a group all carry one type. */
  predicate GroupConsistent(slots: seq<Slot>, strictSameTypeSlotIndex: set<nat>,
                            allowExceptionalScalarSlotIndex: set<nat>)
  {
    forall i, j :: 0 <= i < |slots| && 0 <= j < |slots|
      && i in strictSameTypeSlotIndex && i !in allowExceptionalScalarSlotIndex
      && j in strictSameTypeSlotIndex && j !in allowExceptionalScalarSlotIndex
      ==> slots[i].valueType == slots[j].valueType
  }

  /** Whatever link arrives, the constrained controller keeps the strict group on one type. */
  lemma ConstrainedKeepsGroupConsistent(slots: seq<Slot>, strictSameTypeSlotIndex: set<nat>,
                                        allowExceptionalScalarSlotIndex: set<nat>, target: nat,
                                        otherType: ValueType, catalog: Catalog)
    requires target < |slots|
    requires GroupConsistent(slots, strictSameTypeSlotIndex, allowExceptionalScalarSlotIndex)
    ensures GroupConsistent(ConstrainedRetype(slots, strictSameTypeSlotIndex, allowExceptionalScalarSlotIndex,
                                              target, otherType, catalog),
                            strictSameTypeSlotIndex, allowExceptionalScalarSlotIndex)
  {
    var r := ConstrainedRetype(slots, strictSameTypeSlotIndex, allowExceptionalScalarSlotIndex,
                               target, otherType, catalog);
    if slots[target].isMaster && target in strictSameTypeSlotIndex && target !in allowExceptionalScalarSlotIndex {
      ConstrainedGroupTarget(slots, strictSameTypeSlotIndex, allowExceptionalScalarSlotIndex, target, otherType, catalog);
    } else if slots[target].isMaster && target in strictSameTypeSlotIndex {
      ConstrainedScalarTarget(slots, strictSameTypeSlotIndex, allowExceptionalScalarSlotIndex, target, otherType, catalog);
    }
  }

  /** Preparing the same link twice changes nothing the second time. */
  lemma {:induction false} ConstrainedIdempotent(slots: seq<Slot>, strictSameTypeSlotIndex: set<nat>,
                                                 allowExceptionalScalarSlotIndex: set<nat>, target: nat,
                                                 otherType: ValueType, catalog: Catalog)
    requires target < |slots|
    ensures var once := ConstrainedRetype(slots, strictSameTypeSlotIndex, allowExceptionalScalarSlotIndex,
                                          target, otherType, catalog);
      ConstrainedRetype(once, strictSameTypeSlotIndex, allowExceptionalScalarSlotIndex, target, otherType, catalog)
        == once
  {
    var once := ConstrainedRetype(slots, strictSameTypeSlotIndex, allowExceptionalScalarSlotIndex,
                                  target, otherType, catalog);
    var twice := ConstrainedRetype(once, strictSameTypeSlotIndex, allowExceptionalScalarSlotIndex,
                                   target, otherType, catalog);
    assert once[target].isMaster == slots[target].isMaster;
    if !slots[target].isMaster || target !in strictSameTypeSlotIndex {
    } else if target in allowExceptionalScalarSlotIndex {
      ScalarIdempotent(slots, strictSameTypeSlotIndex, target, otherType, catalog);
    } else {
      GroupIdempotent(slots, strictSameTypeSlotIndex, allowExceptionalScalarSlotIndex, target, otherType, catalog);
    }
  }

  lemma ScalarIdempotent(slots: seq<Slot>, strictSameTypeSlotIndex: set<nat>, target: nat,
                         otherType: ValueType, catalog: Catalog)
    requires target < |slots| && target in strictSameTypeSlotIndex
    ensures var once := ScalarRetype(slots, strictSameTypeSlotIndex, target, otherType, catalog);
      ScalarRetype(once, strictSameTypeSlotIndex, target, otherType, catalog) == once
  {
    var once := ScalarRetype(slots, strictSameTypeSlotIndex, target, otherType, catalog);
    var first := FirstStrictSlot(slots, strictSameTypeSlotIndex);
    assert FirstStrictSlot(once, strictSameTypeSlotIndex) == first;
    var best := catalog.bestAffinity(otherType);
    if Some(slots[first.value].valueType) == best {
      assert once[first.value].valueType == best.value;
    } else if !catalog.canLink(slots[target].valueType, otherType) {
      if first.value != target {
        assert once[first.value] == slots[first.value];
      }
    }
  }

  lemma GroupIdempotent(slots: seq<Slot>, strictSameTypeSlotIndex: set<nat>,
                        allowExceptionalScalarSlotIndex: set<nat>, target: nat,
                        otherType: ValueType, catalog: Catalog)
    requires target < |slots|
    ensures var once := GroupRetype(slots, strictSameTypeSlotIndex, allowExceptionalScalarSlotIndex,
                                    target, otherType, catalog);
      GroupRetype(once, strictSameTypeSlotIndex, allowExceptionalScalarSlotIndex, target, otherType, catalog)
        == once
  {
    var once := GroupRetype(slots, strictSameTypeSlotIndex, allowExceptionalScalarSlotIndex,
                            target, otherType, catalog);
    var twice := GroupRetype(once, strictSameTypeSlotIndex, allowExceptionalScalarSlotIndex,
                             target, otherType, catalog);
    assert forall i :: 0 <= i < |slots| ==> once[i].HasLink(true) == slots[i].HasLink(true);
    assert OtherStrictSlotLinked(once, strictSameTypeSlotIndex, allowExceptionalScalarSlotIndex, target)
      == OtherStrictSlotLinked(slots, strictSameTypeSlotIndex, allowExceptionalScalarSlotIndex, target);
    if once != slots {
      var t := catalog.bestAffinity(otherType).value;
      assert once == RetypeGroup(slots, strictSameTypeSlotIndex, allowExceptionalScalarSlotIndex, t, catalog);
      var again := RetypeGroup(once, strictSameTypeSlotIndex, allowExceptionalScalarSlotIndex, t, catalog);
      assert forall i :: 0 <= i < |slots| ==> again[i] == once[i];
      assert again == once;
    }
  }

  /** A uniform operator's static slots never change, and after a retype every other
      slot carries the best affinity. */
  lemma UniformRetypeShape(slots: seq<Slot>, staticSlotIndex: set<nat>, target: nat,
                           otherType: ValueType, catalog: Catalog)
    requires target < |slots|
    ensures var r := UniformRetype(slots, staticSlotIndex, target, otherType, catalog);
      var retype := slots[target].isMaster && target !in staticSlotIndex
        && catalog.bestAffinity(otherType).Some?
        && (!OtherInputLinked(slots, target) || !catalog.canLink(slots[target].valueType, otherType));
      && (!retype ==> r == slots)
      && (retype ==> forall i :: 0 <= i < |slots| ==>
            r[i] == if i in staticSlotIndex then slots[i]
                    else slots[i].(valueType := catalog.bestAffinity(otherType).value))
  {
  }

  /** The non-static slots of a uniform operator all carry one type. */
  predicate UniformConsistent(slots: seq<Slot>, staticSlotIndex: set<nat>)
  {
    forall i, j :: 0 <= i < |slots| && 0 <= j < |slots| && i !in staticSlotIndex && j !in staticSlotIndex
      ==> slots[i].valueType == slots[j].valueType
  }

  /** The uniform controller keeps the operator's non-static slots on one type, and
      preparing the same link twice changes nothing the second time. */
  lemma UniformKeepsConsistentAndIdempotent(slots: seq<Slot>, staticSlotIndex: set<nat>, target: nat,
                                            otherType: ValueType, catalog: Catalog)
    requires target < |slots|
    ensures var once := UniformRetype(slots, staticSlotIndex, target, otherType, catalog);
      && (UniformConsistent(slots, staticSlotIndex) ==> UniformConsistent(once, staticSlotIndex))
      && UniformRetype(once, staticSlotIndex, target, otherType, catalog) == once
  {
    var once := UniformRetype(slots, staticSlotIndex, target, otherType, catalog);
    UniformRetypeShape(slots, staticSlotIndex, target, otherType, catalog);
    UniformRetypeShape(once, staticSlotIndex, target, otherType, catalog);
    assert OtherInputLinked(once, target) == OtherInputLinked(slots, target) by {
      assert forall i :: 0 <= i < |slots| ==>
        once[i].HasLink(false) == slots[i].HasLink(false) && once[i].subSlotLinked == slots[i].subSlotLinked;
    }
  }

  /** Preparing the same link twice on a unified operator changes nothing the second time. */
  lemma UnifiedIdempotent(slots: seq<Slot>, target: nat, otherType: ValueType, catalog: Catalog)
    requires target < |slots|
    ensures var once := UnifiedRetype(slots, target, otherType, catalog);
      UnifiedRetype(once, target, otherType, catalog) == once
  {
  }

  // ---------------------------------------------------------------------------
  // The operator and its controllers
  // ---------------------------------------------------------------------------

  /** The operator model a controller edits: its input slots in order and its variant. */
  class Operator {
    var inputSlots: seq<Slot>
    const kind: OperatorKind

    /** The constrained variant's strict group names existing slots. */
    ghost predicate Valid()
      reads this
    {
      kind.UnifiedConstrained? ==> StrictInRange(inputSlots, kind.strictSameTypeSlotIndex)
    }

    constructor (inputSlots: seq<Slot>, kind: OperatorKind)
      requires kind.UnifiedConstrained? ==> StrictInRange(inputSlots, kind.strictSameTypeSlotIndex)
      ensures this.inputSlots == inputSlots && this.kind == kind
      ensures Valid()
    {
      this.inputSlots := inputSlots;
      this.kind := kind;
    }

    /** SetOperandType(index, t) of the unified family: retypes one operand. */
    method SetOperandType(index: nat, t: ValueType)
      requires index < |inputSlots|
      modifies this
      ensures inputSlots == Retyped(old(inputSlots), index, t)
    {
      inputSlots := inputSlots[index := inputSlots[index].(valueType := t)];
    }

    /** SetOperandType(t) of the uniform family: retypes every non-static operand. */
    method SetUniformOperandType(t: ValueType)
      requires kind.Uniform?
      modifies this
      ensures inputSlots == RetypeNonStatic(old(inputSlots), kind.staticSlotIndex, t)
    {
      inputSlots := RetypeNonStatic(inputSlots, kind.staticSlotIndex, t);
    }

    /** RemoveOperand(index) of the cascaded family: the operands after index move down by one. */
    method RemoveOperand(index: nat)
      requires kind.Cascaded? && index < |inputSlots|
      modifies this
      ensures inputSlots == old(inputSlots[..index] + inputSlots[index + 1..])
    {
      inputSlots := inputSlots[..index] + inputSlots[index + 1..];
    }
  }

  /** VFXUnifiedOperatorControllerBase.WillCreateLink (Unified and Cascaded controllers). */
  method UnifiedWillCreateLink(model: Operator, target: nat, otherType: ValueType, catalog: Catalog)
    requires target < |model.inputSlots|
    modifies model
    ensures model.inputSlots == UnifiedRetype(old(model.inputSlots), target, otherType, catalog)
  {
    if !model.inputSlots[target].isMaster {
      return;
    }
    var bestAffinityType := catalog.bestAffinity(otherType);
    if bestAffinityType != None {
      model.SetOperandType(target, bestAffinityType.value);
    }
  }

  /** VFXUnifiedConstraintOperatorController.WillCreateLink. */
  method ConstrainedWillCreateLink(model: Operator, target: nat, otherType: ValueType, catalog: Catalog)
    requires model.kind.UnifiedConstrained? && model.Valid()
    requires target < |model.inputSlots|
    modifies model
    ensures model.Valid()
    ensures model.inputSlots == ConstrainedRetype(old(model.inputSlots), model.kind.strictSameTypeSlotIndex,
                                                  model.kind.allowExceptionalScalarSlotIndex,
                                                  target, otherType, catalog)
  {
    if !model.inputSlots[target].isMaster {
      return;
    }
    var strict := model.kind.strictSameTypeSlotIndex;
    var exceptional := model.kind.allowExceptionalScalarSlotIndex;
    if target !in strict {
      UnifiedWillCreateLink(model, target, otherType, catalog);
      return;
    }

    if target in exceptional {
      var bestAffinityType := catalog.bestAffinity(otherType);
      var otherSlotWithConstraint := FirstStrictSlot(model.inputSlots, strict);
      if otherSlotWithConstraint.None?
         || Some(model.inputSlots[otherSlotWithConstraint.value].valueType) == bestAffinityType
      {
        if bestAffinityType.Some? {
          model.SetOperandType(target, bestAffinityType.value);
        }
      } else if !catalog.canLink(model.inputSlots[target].valueType, otherType) {
        var bestScalarAffinityType := catalog.bestAffinity(catalog.matchingScalar(otherType));
        if bestScalarAffinityType.Some? {
          model.SetOperandType(target, bestScalarAffinityType.value);
        }
      }
      return;
    }

    var hasLinks := OtherStrictSlotLinked(model.inputSlots, strict, exceptional, target);
    var linkPossible := catalog.canLink(model.inputSlots[target].valueType, otherType);
    if !hasLinks || !linkPossible {
      var bestAffinityType := catalog.bestAffinity(otherType);
      if bestAffinityType.Some? {
        var t := bestAffinityType.value;
        ghost var before := model.inputSlots;
        var remaining := strict;
        while remaining != {}
          invariant remaining <= strict
          invariant |model.inputSlots| == |before|
          invariant forall i :: 0 <= i < |before| ==>
            model.inputSlots[i] == if i in remaining then before[i]
                                   else GroupSlot(before[i], i, strict, exceptional, t, catalog)
          decreases remaining
        {
          var slotIndex :| slotIndex in remaining;
          if slotIndex !in exceptional || catalog.matchingScalar(t) != model.inputSlots[slotIndex].valueType {
            model.SetOperandType(slotIndex, t);
          }
          remaining := remaining - {slotIndex};
        }
        assert model.inputSlots == RetypeGroup(before, strict, exceptional, t, catalog);
      }
    }
  }

  /** VFXUniformOperatorController.WillCreateLink. */
  method UniformWillCreateLink(model: Operator, target: nat, otherType: ValueType, catalog: Catalog)
    requires model.kind.Uniform? && target < |model.inputSlots|
    modifies model
    ensures model.inputSlots == UniformRetype(old(model.inputSlots), model.kind.staticSlotIndex,
                                              target, otherType, catalog)
  {
    if !model.inputSlots[target].isMaster {
      return;
    }
    var hasLink := OtherInputLinked(model.inputSlots, target);
    if target in model.kind.staticSlotIndex {
      return;
    }
    var linkImpossibleNow := !catalog.canLink(model.inputSlots[target].valueType, otherType);
    var bestAffinity := catalog.bestAffinity(otherType);
    if (!hasLink || linkImpossibleNow) && bestAffinity.Some? {
      model.SetUniformOperandType(bestAffinity.value);
    }
  }

  /** The anchor standing for the next operand a cascaded operator will accept. */
  class UpcomingAnchor {
    const owner: CascadedOperatorController
    const hidden: bool

    constructor (owner: CascadedOperatorController, hidden: bool)
      ensures this.owner == owner && this.hidden == hidden
    {
      this.owner := owner;
      this.hidden := hidden;
    }
  }

  /** The caller's list of input anchors that NewInputSet extends. */
  class AnchorList {
    var items: seq<object>

    constructor ()
      ensures items == []
    {
      items := [];
    }
  }

  /** VFXCascadedOperatorController: the unified controller plus operand removal and
      the upcoming anchor. */
  class CascadedOperatorController {
    const model: Operator
    var upcomingAnchor: UpcomingAnchor?

    constructor (model: Operator)
      requires model.kind.Cascaded?
      ensures this.model == model && upcomingAnchor == null
    {
      this.model := model;
      upcomingAnchor := null;
    }

    /** CanRemove: more operands than the minimal count. */
    predicate CanRemove()
      reads this, model
      requires model.kind.Cascaded?
    {
      |model.inputSlots| > model.kind.minimalOperandCount
    }

    /** RemoveOperand(index): a no-op at or below the minimal operand count. */
    method RemoveOperand(index: nat)
      requires model.kind.Cascaded?
      requires CanRemove() ==> index < |model.inputSlots|
      modifies model
      ensures old(CanRemove()) ==> model.inputSlots == old(model.inputSlots[..index] + model.inputSlots[index + 1..])
      ensures !old(CanRemove()) ==> model.inputSlots == old(model.inputSlots)
      ensures old(|model.inputSlots|) >= model.kind.minimalOperandCount
        ==> |model.inputSlots| >= model.kind.minimalOperandCount
    {
      if CanRemove() {
        model.RemoveOperand(index);
      }
    }

    /** NewInputSet: creates the upcoming anchor on first use and appends that same
        anchor to the caller's list on every call. */
    method NewInputSet(newInputs: AnchorList)
      modifies this, newInputs
      ensures upcomingAnchor != null
      ensures old(upcomingAnchor) != null ==> upcomingAnchor == old(upcomingAnchor)
      ensures old(upcomingAnchor) == null ==> fresh(upcomingAnchor) && upcomingAnchor.owner == this
      ensures newInputs.items == old(newInputs.items) + [upcomingAnchor]
    {
      if upcomingAnchor == null {
        upcomingAnchor := new UpcomingAnchor(this, false);
      }
      newInputs.items := newInputs.items + [upcomingAnchor];
    }
  }
}
