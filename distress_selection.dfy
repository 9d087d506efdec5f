/**
 * The distress cards of `ImmediateActionSection` and the `SelectionModal`
 * that edits them: a multi-select bounded by six, whose confirm button is
 * enabled only at exactly six and which works on a copy of the section's
 * list until it is confirmed.
 */
module DistressSelection {
  import opened Options

  /** How many distresses the section stores, and the most the modal lets one pick. */
  const MaxSelected: nat := 6

  /** The checkbox labels of the modal, the keys of the distress definitions in order. */
  const DistressNames: seq<string> := [
    "Downsizing", "30\U{2013}60 Days", "Estate", "Probate", "Divorce", "Absentee", "Taxes",
    "Bankruptcy", "Debt Collection", "Low Credit", "Eviction", "Failing Listing Weight",
    "Mechanic Lien", "City/County Lien", "Utility Lien", "Water Shut Off", "HOA Lien",
    "Other Lien", "Misc", "Equity", "Inter Family Transfer", "Senior +55", "Poor condition",
    "Judgement", "Vacant", "Pre-Foreclosure", "Fire Damage", "D4D", "Life Event"]

  /** The section's list when the page loads. */
  const InitialSelection: seq<string> := [
    "Pre-Foreclosure", "30\U{2013}60 Days", "Fire Damage", "D4D", "Estate", "Probate"]

  predicate NoDuplicates(s: seq<string>) {
    forall i, j :: 0 <= i < j < |s| ==> s[i] != s[j]
  }

  /** A list the modal may hold: distinct items of `names`, at most six. */
  predicate IsChoiceOf(s: seq<string>, names: seq<string>) {
    && NoDuplicates(s) && |s| <= MaxSelected
    && forall i :: 0 <= i < |s| ==> s[i] in names
  }

  /** `s.filter(d => d !== x)`. */
  function Without(s: seq<string>, x: string): (r: seq<string>)
    ensures |r| <= |s|
    ensures forall y :: y in r <==> y in s && y != x
  {
    if s == [] then []
    else if s[0] == x then Without(s[1..], x)
    else [s[0]] + Without(s[1..], x)
  }

  /** Filtering out an item of a duplicate-free list removes exactly its one
      occurrence and keeps the others in order. */
  lemma {:induction false} WithoutAt(s: seq<string>, i: nat)
    requires NoDuplicates(s) && i < |s|
    ensures Without(s, s[i]) == s[..i] + s[i + 1..]
    decreases |s|
  {
    if i == 0 {
      WithoutAbsent(s[1..], s[0]);
    } else {
      var tail := s[1..];
      assert NoDuplicates(tail);
      WithoutAt(tail, i - 1);
      assert tail[i - 1] == s[i];
      assert s[..i] + s[i + 1..] == [s[0]] + (tail[..i - 1] + tail[i..]);
    }
  }

  /** Filtering out an absent item changes nothing. */
  lemma {:induction false} WithoutAbsent(s: seq<string>, x: string)
    requires x !in s
    ensures Without(s, x) == s
    decreases |s|
  {
    if s != [] {
      WithoutAbsent(s[1..], x);
    }
  }

  /** `toggleDistress`: remove a chosen item, append an unchosen one while
      fewer than six are chosen, otherwise do nothing. */
  function Toggled(s: seq<string>, d: string): (r: seq<string>)
    ensures d in s ==> d !in r && forall y :: y != d ==> (y in r <==> y in s)
    ensures d !in s && |s| < MaxSelected ==> r == s + [d]
    ensures d !in s && |s| >= MaxSelected ==> r == s
  {
    if d in s then Without(s, d)
    else if |s| < MaxSelected then s + [d]
    else s
  }

  /** Toggling an offered item keeps a valid choice valid: at most six
      distinct offered items. */
  lemma ToggleKeepsChoice(s: seq<string>, d: string, names: seq<string>)
    requires IsChoiceOf(s, names) && d in names
    ensures IsChoiceOf(Toggled(s, d), names)
  {
    if d in s {
      var i :| 0 <= i < |s| && s[i] == d;
      WithoutAt(s, i);
      RemoveAtKeepsChoice(s, i, names);
    }
  }

  lemma RemoveAtKeepsChoice(s: seq<string>, i: nat, names: seq<string>)
    requires IsChoiceOf(s, names) && i < |s|
    ensures IsChoiceOf(s[..i] + s[i + 1..], names)
  {
    var r := s[..i] + s[i + 1..];
    forall k | 0 <= k < |r|
      ensures r[k] == s[if k < i then k else k + 1]
    {
    }
  }

  /** Toggling a chosen item removes exactly that item and keeps the order of the rest. */
  lemma TogglePresent(s: seq<string>, i: nat)
    requires NoDuplicates(s) && i < |s|
    ensures Toggled(s, s[i]) == s[..i] + s[i + 1..]
  {
    WithoutAt(s, i);
  }

  /** Picking an item and unpicking it again restores the list. */
  lemma ToggleAbsentTwice(s: seq<string>, d: string)
    requires d !in s && |s| < MaxSelected
    ensures Toggled(Toggled(s, d), d) == s
  {
    WithoutLastAppended(s, d);
  }

  lemma {:induction false} WithoutLastAppended(s: seq<string>, d: string)
    requires d !in s
    ensures Without(s + [d], d) == s
    decreases |s|
  {
    if s == [] {
      assert [d][1..] == [];
    } else {
      assert (s + [d])[1..] == s[1..] + [d];
      WithoutLastAppended(s[1..], d);
    }
  }

  /** The checkbox of an unchosen item is disabled once six are chosen. */
  predicate CheckboxDisabled(s: seq<string>, d: string) {
    d !in s && |s| >= MaxSelected
  }

  /** A disabled checkbox could not change the list anyway. */
  lemma DisabledCheckboxIsInert(s: seq<string>, d: string)
    requires CheckboxDisabled(s, d)
    ensures Toggled(s, d) == s
  {
  }

  /** The confirm button is enabled iff exactly six are chosen. */
  predicate ConfirmEnabled(s: seq<string>) {
    |s| == MaxSelected
  }

  // ---------------------------------------------------------------
  // The section and its modal together
  // ---------------------------------------------------------------

  /** The section's list and, while the modal is mounted, the modal's own list. */
  datatype SectionState = SectionState(selected: seq<string>, modal: Option<seq<string>>)

  const InitialSectionState: SectionState := SectionState(InitialSelection, None)

  datatype SectionEvent =
    | EditButton            // opens the modal
    | Checkbox(d: string)   // the checkbox of distress `d` in the modal changes
    | Close                 // Cancel, the close icon, the backdrop or Escape
    | ConfirmButton

  /** The state after one event. A modal is mounted afresh, from the
      section's list, each time it opens; an event on a control that is not
      on screen (or is disabled, for confirm) changes nothing. */
  function SectionStep(s: SectionState, e: SectionEvent): (r: SectionState)
    ensures r.selected != s.selected ==>
              e == ConfirmButton && s.modal.Some? && ConfirmEnabled(s.modal.value)
              && r == SectionState(s.modal.value, None)
  {
    match e
    case EditButton => if s.modal.None? then s.(modal := Some(s.selected)) else s
    case Checkbox(d) =>
      if s.modal.Some? && d in DistressNames then s.(modal := Some(Toggled(s.modal.value, d))) else s
    case Close => s.(modal := None)
    case ConfirmButton =>
      if s.modal.Some? && ConfirmEnabled(s.modal.value) then SectionState(s.modal.value, None) else s
  }

  function SectionRun(s: SectionState, es: seq<SectionEvent>): SectionState
    decreases |es|
  {
    if es == [] then s else SectionRun(SectionStep(s, es[0]), es[1..])
  }

  /** The section always stores six distinct distresses, and an open modal
      holds at most six distinct ones. */
  predicate SectionInvariant(s: SectionState) {
    && IsChoiceOf(s.selected, DistressNames) && |s.selected| == MaxSelected
    && (s.modal.Some? ==> IsChoiceOf(s.modal.value, DistressNames))
  }

  lemma InitialSectionStateValid()
    ensures SectionInvariant(InitialSectionState)
  {
  }

  lemma SectionStepKeepsInvariant(s: SectionState, e: SectionEvent)
    requires SectionInvariant(s)
    ensures SectionInvariant(SectionStep(s, e))
  {
    if e.Checkbox? && s.modal.Some? && e.d in DistressNames {
      ToggleKeepsChoice(s.modal.value, e.d, DistressNames);
    }
  }

  lemma {:induction false} SectionRunKeepsInvariant(s: SectionState, es: seq<SectionEvent>)
    requires SectionInvariant(s)
    ensures SectionInvariant(SectionRun(s, es))
    decreases |es|
  {
    if es != [] {
      SectionStepKeepsInvariant(s, es[0]);
      SectionRunKeepsInvariant(SectionStep(s, es[0]), es[1..]);
    }
  }

  /** Opening the modal starts it from a copy of the section's list. */
  lemma EditCopiesList(s: SectionState)
    requires s.modal.None?
    ensures SectionStep(s, EditButton) == SectionState(s.selected, Some(s.selected))
  {
  }

  /** Confirming commits the modal's list and closes it iff exactly six are
      chosen; otherwise the button is disabled. */
  lemma ConfirmCommits(s: SectionState, local: seq<string>)
    requires s.modal == Some(local)
    ensures |local| == MaxSelected ==> SectionStep(s, ConfirmButton) == SectionState(local, None)
    ensures |local| != MaxSelected ==> SectionStep(s, ConfirmButton) == s
  {
  }

  /** Without a confirm, nothing that happens in the modal reaches the section. */
  lemma {:induction false} OnlyConfirmCommits(s: SectionState, es: seq<SectionEvent>)
    requires forall i :: 0 <= i < |es| ==> es[i] != ConfirmButton
    ensures SectionRun(s, es).selected == s.selected
    decreases |es|
  {
    if es != [] {
      OnlyConfirmCommits(SectionStep(s, es[0]), es[1..]);
    }
  }

  /** Closing discards the modal's list: opening again starts from the section's. */
  lemma CloseDiscards(s: SectionState)
    ensures SectionStep(SectionStep(s, Close), EditButton) == SectionState(s.selected, Some(s.selected))
  {
  }

  /** `SelectionModal`: the local copy it edits. */
  class SelectionModal {
    var localSelected: seq<string>

    constructor (selected: seq<string>)
      ensures localSelected == selected
    {
      localSelected := selected;
    }

    method ToggleDistress(distress: string)
      modifies this
      ensures localSelected == Toggled(old(localSelected), distress)
    {
      if distress in localSelected {
        localSelected := Without(localSelected, distress);
      } else if |localSelected| < MaxSelected {
        localSelected := localSelected + [distress];
      }
    }

    /** The confirm button is enabled. */
    predicate CanConfirm()
      reads this
    {
      ConfirmEnabled(localSelected)
    }
  }

  /** `ImmediateActionSection`: the list it stores and the modal it may have
      mounted. */
  class ImmediateActionSection {
    var selectedDistresses: seq<string>
    var modalOpen: bool
    var modal: SelectionModal?

    function State(): SectionState
      reads this, modal
    {
      SectionState(selectedDistresses, if modal == null then None else Some(modal.localSelected))
    }

    ghost predicate Valid()
      reads this, modal
    {
      (modalOpen <==> modal != null) && SectionInvariant(State())
    }

    constructor ()
      ensures Valid() && State() == InitialSectionState
    {
      selectedDistresses := InitialSelection;
      modalOpen := false;
      modal := null;
    }

    /** The Edit button: `setModalOpen(true)`, which mounts a fresh modal. */
    method Edit()
      requires Valid()
      modifies this
      ensures Valid() && State() == SectionStep(old(State()), EditButton)
      ensures old(modal) == null ==> fresh(modal)
    {
      if !modalOpen {
        modal := new SelectionModal(selectedDistresses);
        modalOpen := true;
      }
    }

    /** A checkbox inside the mounted modal. */
    method Check(distress: string)
      requires Valid()
      modifies modal
      ensures Valid() && State() == SectionStep(old(State()), Checkbox(distress))
    {
      if modal != null && distress in DistressNames {
        SectionStepKeepsInvariant(State(), Checkbox(distress));
        modal.ToggleDistress(distress);
      }
    }

    /** The modal's `onClose`: `setModalOpen(false)`, which unmounts it. */
    method Close()
      requires Valid()
      modifies this
      ensures Valid() && State() == SectionStep(old(State()), SectionEvent.Close)
    {
      modalOpen := false;
      modal := null;
    }

    /** The modal's `onConfirm(localSelected)`, fired only while enabled. */
    method Confirm()
      requires Valid()
      modifies this
      ensures Valid() && State() == SectionStep(old(State()), ConfirmButton)
    {
      if modal != null && modal.CanConfirm() {
        selectedDistresses := modal.localSelected;
        modalOpen := false;
        modal := null;
      }
    }
  }
}
