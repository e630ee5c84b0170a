/**
 * The modal dialog: while it is open an effect registers a keydown listener
 * that closes it on Escape and hides the page's scrollbar; the effect's
 * cleanup, which runs before every re-run of the effect and on unmount,
 * removes that listener and sets the overflow to `unset`. A closed modal
 * renders nothing, so its backdrop and close button cannot be clicked.
 */
module Dialog {

  const Hidden := "hidden"
  const Unset := "unset"
  const EscapeKey := "Escape"

  class Modal {
    /** The `isOpen` prop of the current render. */
    var isOpen: bool
    /** The component is mounted; after unmount only the document is left. */
    var mounted: bool
    /** The `handleEscape` listener of the current effect run is registered on
        the document's keydown event. */
    var escapeListener: bool
    /** `document.body.style.overflow`. */
    var bodyOverflow: string
    /** How many times the modal has called its `onClose` prop. */
    ghost var closeCalls: nat

    /** Between events: a mounted modal has its listener registered exactly
        while open, and the overflow `hidden` whenever it is open; an unmounted
        one has left no listener behind and the overflow `unset`. */
    ghost predicate Valid()
      reads this
    {
      if mounted then
        escapeListener == isOpen && (isOpen ==> bodyOverflow == Hidden)
      else
        !escapeListener && bodyOverflow == Unset
    }

    /** The part of the page that is rendered: nothing unless open. */
    predicate Rendered()
      reads this
    {
      mounted && isOpen
    }

    /** First render with prop `open` over a page whose overflow is
        `pageOverflow`, followed by the first run of the effect. */
    constructor Mount(open: bool, pageOverflow: string)
      ensures Valid() && mounted && isOpen == open && closeCalls == 0
      ensures bodyOverflow == if open then Hidden else pageOverflow
    {
      isOpen := open;
      mounted := true;
      escapeListener := false;
      bodyOverflow := pageOverflow;
      closeCalls := 0;
      new;
      RunEffect();
    }

    /** The effect body: only an open modal registers and hides. React runs it
        only after the previous run's cleanup, so no listener is registered yet
        and `escapeListener` never stands for two closures. */
    method RunEffect()
      requires !escapeListener
      modifies this
      ensures escapeListener == old(isOpen)
      ensures bodyOverflow == if old(isOpen) then Hidden else old(bodyOverflow)
      ensures isOpen == old(isOpen) && mounted == old(mounted) && closeCalls == old(closeCalls)
    {
      if isOpen {
        escapeListener := true;
        bodyOverflow := Hidden;
      }
    }

    /** The cleanup returned by the effect: unconditional, whatever the prop. */
    method Cleanup()
      modifies this
      ensures !escapeListener && bodyOverflow == Unset
      ensures isOpen == old(isOpen) && mounted == old(mounted) && closeCalls == old(closeCalls)
    {
      escapeListener := false;
      bodyOverflow := Unset;
    }

    /** A re-render with prop `open`. The effect re-runs, after the previous
        run's cleanup, when `isOpen` changed or the parent passed a different
        `onClose` function; otherwise nothing happens to the document. */
    method Rerender(open: bool, onCloseChanged: bool)
      requires Valid() && mounted
      modifies this
      ensures Valid() && mounted && isOpen == open && closeCalls == old(closeCalls)
      ensures bodyOverflow ==
        if open then Hidden
        else if old(isOpen) || onCloseChanged then Unset
        else old(bodyOverflow)
    {
      if open != isOpen || onCloseChanged {
        Cleanup();
        isOpen := open;
        RunEffect();
      }
    }

    /** Unmount: the last cleanup runs, open or not. */
    method Unmount()
      requires Valid() && mounted
      modifies this
      ensures Valid() && !mounted && !escapeListener && bodyOverflow == Unset
      ensures isOpen == old(isOpen) && closeCalls == old(closeCalls)
    {
      Cleanup();
      mounted := false;
    }

    /** A keydown on the document: `handleEscape`, if registered, calls
        `onClose` exactly when the key is Escape. */
    method KeyDown(key: string)
      requires Valid()
      modifies this
      ensures Valid()
      ensures closeCalls == old(closeCalls) + if old(Rendered()) && key == EscapeKey then 1 else 0
      ensures isOpen == old(isOpen) && mounted == old(mounted)
      ensures escapeListener == old(escapeListener) && bodyOverflow == old(bodyOverflow)
    {
      if escapeListener && key == EscapeKey {
        closeCalls := closeCalls + 1;
      }
    }

    /** A click on the backdrop or on the close button calls `onClose`; a
        closed modal has neither on the page. */
    method ClickClose()
      requires Valid()
      modifies this
      ensures Valid()
      ensures closeCalls == old(closeCalls) + if old(Rendered()) then 1 else 0
      ensures isOpen == old(isOpen) && mounted == old(mounted)
      ensures escapeListener == old(escapeListener) && bodyOverflow == old(bodyOverflow)
    {
      if Rendered() {
        closeCalls := closeCalls + 1;
      }
    }
  }

  /** Open it, press Escape, close it: one `onClose`, and the page is left
      scrollable with no listener behind. */
  method OpenEscapeClose()
  {
    var m := new Modal.Mount(false, "");
    m.KeyDown(EscapeKey);
    assert m.closeCalls == 0;
    m.Rerender(true, false);
    assert m.bodyOverflow == Hidden;
    m.KeyDown("Enter");
    m.KeyDown(EscapeKey);
    assert m.closeCalls == 1;
    m.Rerender(false, false);
    assert !m.escapeListener && m.bodyOverflow == Unset;
    m.KeyDown(EscapeKey);
    m.ClickClose();
    assert m.closeCalls == 1;
    m.Unmount();
    assert !m.escapeListener && m.bodyOverflow == Unset;
  }
}
