/**
 * `Tooltip`: a wrapper that shows its `content` on hover or focus, hides it
 * on leave, blur or Escape, and never shows an empty content.
 */
module TooltipVisibility {

  /** `content` is a prop: the parent can change it between events (the
      sidebar passes an empty string while expanded). */
  datatype TooltipState = TooltipState(content: string, visible: bool)

  datatype TooltipEvent =
    | MouseEnter
    | MouseLeave
    | Focus
    | Blur
    | KeyDown(key: string)
    | ContentChange(content: string)

  function InitialTooltip(content: string): TooltipState {
    TooltipState(content, false)
  }

  /** `shouldShowTooltip`: visible and with a non-empty (truthy) content. */
  predicate Shown(s: TooltipState) {
    s.visible && s.content != ""
  }

  function Step(s: TooltipState, e: TooltipEvent): (r: TooltipState)
    ensures (e.MouseEnter? || e.Focus?) ==> r.visible == (s.visible || s.content != "")
    ensures (e.MouseLeave? || e.Blur?) ==> !r.visible
    ensures e == KeyDown("Escape") ==> !r.visible
    ensures e.KeyDown? && e.key != "Escape" ==> r == s
    ensures !e.ContentChange? ==> r.content == s.content
    ensures e.ContentChange? ==> r == TooltipState(e.content, s.visible)
  {
    match e
    case MouseEnter | Focus => if s.content != "" then s.(visible := true) else s
    case MouseLeave | Blur => s.(visible := false)
    // the document listener exists only while visible; hiding a hidden
    // tooltip changes nothing either way
    case KeyDown(key) => if key == "Escape" && s.visible then s.(visible := false) else s
    case ContentChange(c) => s.(content := c)
  }

  function Run(s: TooltipState, events: seq<TooltipEvent>): TooltipState
    decreases |events|
  {
    if events == [] then s else Run(Step(s, events[0]), events[1..])
  }

  /** The flag is only ever raised while there is something to show. */
  predicate Consistent(s: TooltipState) {
    s.visible ==> s.content != ""
  }

  predicate NoContentChange(events: seq<TooltipEvent>) {
    forall i :: 0 <= i < |events| ==> !events[i].ContentChange?
  }

  /** While the parent keeps the content fixed, the flag is set only for a
      non-empty content, so visible and shown agree. */
  lemma {:induction false} RunKeepsConsistent(s: TooltipState, events: seq<TooltipEvent>)
    requires Consistent(s) && NoContentChange(events)
    ensures Consistent(Run(s, events))
    ensures Run(s, events).content == s.content
    ensures Shown(Run(s, events)) == Run(s, events).visible
    decreases |events|
  {
    if events != [] {
      assert NoContentChange(events[1..]) by {
        forall i | 0 <= i < |events[1..]| ensures !events[1..][i].ContentChange? {
          assert events[1..][i] == events[i + 1];
        }
      }
      RunKeepsConsistent(Step(s, events[0]), events[1..]);
    }
  }

  /** A tooltip whose content is empty is never shown, whatever the user does. */
  lemma EmptyNeverShown(events: seq<TooltipEvent>)
    requires NoContentChange(events)
    ensures !Shown(Run(InitialTooltip(""), events))
    ensures !Run(InitialTooltip(""), events).visible
  {
    RunKeepsConsistent(InitialTooltip(""), events);
  }

  /** A prop change does not touch the flag: a tooltip hidden by an empty
      content reappears, without a new hover, once the content is back. */
  lemma ContentChangeKeepsFlag(s: TooltipState, c: string)
    requires Shown(s) && c != ""
    ensures !Shown(Step(s, ContentChange("")))
    ensures Shown(Step(Step(s, ContentChange("")), ContentChange(c)))
  {
  }

  /** Hover then leave, or focus then blur, ends hidden. */
  lemma ShowThenHide(s: TooltipState)
    ensures !Run(s, [MouseEnter, MouseLeave]).visible
    ensures !Run(s, [Focus, Blur]).visible
    ensures !Run(s, [Focus, KeyDown("Escape")]).visible
  {
  }

  /** The component instance. */
  class Tooltip {
    var content: string
    var visible: bool

    function State(): TooltipState
      reads this
    {
      TooltipState(content, visible)
    }

    constructor (content: string)
      ensures State() == InitialTooltip(content)
    {
      this.content := content;
      visible := false;
    }

    /** `onMouseEnter` and `onFocus`. */
    method Enter()
      modifies this
      ensures State() == Step(old(State()), MouseEnter)
      ensures State() == Step(old(State()), Focus)
    {
      if content != "" {
        visible := true;
      }
    }

    /** `onMouseLeave` and `onBlur`. */
    method Leave()
      modifies this
      ensures State() == Step(old(State()), MouseLeave)
      ensures State() == Step(old(State()), Blur)
    {
      visible := false;
    }

    /** The document `keydown` listener, registered only while visible. */
    method KeyDown(key: string)
      modifies this
      ensures State() == Step(old(State()), TooltipEvent.KeyDown(key))
    {
      if visible && key == "Escape" {
        visible := false;
      }
    }

    /** The parent re-renders with another `content`. */
    method SetContent(c: string)
      modifies this
      ensures State() == Step(old(State()), ContentChange(c))
    {
      content := c;
    }

    /** The tooltip is on screen now. */
    predicate ShouldShow()
      reads this
    {
      Shown(State())
    }
  }
}
