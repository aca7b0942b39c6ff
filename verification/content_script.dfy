/**
 * The extension's long-press capture on pages: pressing a link for a moment shows a floating
 * "Save" button next to it; clicking the button sends the link to the background. Timers,
 * DOM events and the background's reply are explicit events.
 */
module ContentScript {
  import opened Wrappers
  import Text

  const LongPressDurationMs: nat := 500
  const SaveButtonTimeoutMs: nat := 5000
  // Coordinates and viewport sizes are JavaScript numbers, taken here as exact reals.
  const ButtonWidth: real := 100.0
  const ButtonHeight: real := 40.0
  const Padding: real := 10.0
  const SaveLinkType: string := "SAVE_LINK"
  const SavedToast: string := "Link saved! \U{2728}"
  const FailedToast: string := "Failed to save link"

  /** A link element: its resolved `href` and its `textContent` (`None` for null). */
  datatype Anchor = Anchor(href: string, text: Option<string>)

  /** An event target: not an `Element`, or an element with the result of `closest("a[href]")`,
      which may be an element that is not an HTML anchor (an SVG link). */
  datatype Target = NotAnElement | Element(closest: Option<(bool, Anchor)>)

  /** `findLinkElement`: the enclosing HTML anchor with a non-empty `href` that is neither a
      `javascript:` URL nor `#`. */
  function FindLinkElement(target: Target): (r: Option<Anchor>)
    ensures target.NotAnElement? ==> r.None?
    ensures r.Some? ==> target.Element? && target.closest == Some((true, r.value))
    ensures r.Some? ==> r.value.href != "" && r.value.href != "#"
    ensures r.Some? ==> !Text.HasPrefix(r.value.href, "javascript:")
    ensures (target.Element? && target.closest.Some? && target.closest.value.0
             && target.closest.value.1.href != "" && target.closest.value.1.href != "#"
             && !Text.HasPrefix(target.closest.value.1.href, "javascript:")) ==> r.Some?
  {
    match target
    case NotAnElement => None
    case Element(closest) =>
      if closest.Some? && closest.value.0 && closest.value.1.href != "" then
        var link := closest.value.1;
        if Text.HasPrefix(link.href, "javascript:") || link.href == "#" then None else Some(link)
      else None
  }

  /** The button's left edge: centred on the press, kept `Padding` inside the viewport's right
      edge, and never left of `Padding`. */
  function ButtonLeft(x: real, innerWidth: real): (left: real)
    ensures left >= Padding
    ensures innerWidth - ButtonWidth - Padding >= Padding ==> left <= innerWidth - ButtonWidth - Padding
    ensures Padding <= x - ButtonWidth / 2.0 <= innerWidth - ButtonWidth - Padding ==> left == x - ButtonWidth / 2.0
  {
    var left := x - ButtonWidth / 2.0;
    var bounded := if left < innerWidth - ButtonWidth - Padding then left else innerWidth - ButtonWidth - Padding;
    if Padding > bounded then Padding else bounded
  }

  /** The button's top edge: above the press, kept inside the viewport, never above `Padding`. */
  function ButtonTop(y: real, innerHeight: real): (top: real)
    ensures top >= Padding
    ensures innerHeight - ButtonHeight - Padding >= Padding ==> top <= innerHeight - ButtonHeight - Padding
    ensures Padding <= y - ButtonHeight - Padding <= innerHeight - ButtonHeight - Padding ==>
      top == y - ButtonHeight - Padding
  {
    var top := y - ButtonHeight - Padding;
    var bounded := if top < innerHeight - ButtonHeight - Padding then top else innerHeight - ButtonHeight - Padding;
    if Padding > bounded then Padding else bounded
  }

  /** With room for the button, it lies entirely inside the viewport, `Padding` from each edge. */
  lemma ButtonInsideViewport(x: real, y: real, innerWidth: real, innerHeight: real)
    requires innerWidth >= ButtonWidth + 2.0 * Padding && innerHeight >= ButtonHeight + 2.0 * Padding
    ensures Padding <= ButtonLeft(x, innerWidth) && ButtonLeft(x, innerWidth) + ButtonWidth + Padding <= innerWidth
    ensures Padding <= ButtonTop(y, innerHeight) && ButtonTop(y, innerHeight) + ButtonHeight + Padding <= innerHeight
  {
  }

  /** The title sent for a link: its trimmed text, or its `href` when that is empty. */
  function LinkTitle(link: Anchor): (title: string)
    ensures link.text.Some? && Text.TrimJs(link.text.value) != "" ==> title == Text.TrimJs(link.text.value)
    ensures (link.text.None? || Text.TrimJs(link.text.value) == "") ==> title == link.href
  {
    if link.text.Some? && Text.TrimJs(link.text.value) != "" then Text.TrimJs(link.text.value) else link.href
  }

  /** A save button in the document, with its position. */
  datatype Button = Button(id: nat, left: real, top: real, saving: bool)

  /** A long-press timer waiting to fire, with the press it will act on. */
  datatype PendingPress = PendingPress(timerId: nat, x: real, y: real, link: Anchor)

  /** The message sent to the background. */
  datatype SaveLinkMessage = SaveLinkMessage(url: string, title: string, page: string)

  /** A toast shown on the page. */
  datatype Toast = Toast(message: string, kind: string)

  /** What the background's reply to a save gives: a response, or a failure to deliver or read
      it. */
  datatype SaveReply = Replied(success: bool, error: string) | SendFailed

  /** The toast for a finished save. */
  function ToastFor(reply: SaveReply): (t: Toast)
    ensures reply.Replied? && reply.success ==> t == Toast(SavedToast, "success")
    ensures reply.Replied? && !reply.success && reply.error != "" ==> t == Toast(reply.error, "error")
    ensures (reply.SendFailed? || (!reply.success && reply.error == "")) ==> t == Toast(FailedToast, "error")
  {
    match reply
    case Replied(success, error) =>
      if success then Toast(SavedToast, "success")
      else Toast(if error != "" then error else FailedToast, "error")
    case SendFailed => Toast(FailedToast, "error")
  }

  /** The content script's module state and what it has done to the page. */
  class CaptureController {
    var longPressTimer: Option<nat>
    var scheduled: seq<PendingPress>
    var currentSaveButton: Option<Button>
    var targetLink: Option<Anchor>
    var styleInjected: bool
    var attached: seq<Button>
    var autoHide: seq<nat>
    var savesInFlight: nat
    var outbox: seq<SaveLinkMessage>
    var toasts: seq<Toast>
    var nextId: nat

    /** At most one long-press timer is pending and it is the one the state remembers; the
        current button and the target link are set together; the document holds only the
        current button, placed at least `Padding` from the top-left corner. */
    predicate Valid()
      reads this
    {
      && |scheduled| <= 1
      && (|scheduled| == 1 ==> longPressTimer == Some(scheduled[0].timerId))
      && (currentSaveButton.Some? <==> targetLink.Some?)
      && attached == (if currentSaveButton.Some? then [currentSaveButton.value] else [])
      && (currentSaveButton.Some? ==> currentSaveButton.value.left >= Padding && currentSaveButton.value.top >= Padding)
      && (currentSaveButton.Some? ==> currentSaveButton.value.id < nextId)
      && (forall i :: 0 <= i < |autoHide| ==> autoHide[i] < nextId)
    }

    constructor ()
      ensures Valid()
      ensures longPressTimer.None? && scheduled == [] && currentSaveButton.None? && targetLink.None?
      ensures !styleInjected && attached == [] && autoHide == [] && savesInFlight == 0
      ensures outbox == [] && toasts == []
    {
      longPressTimer := None;
      scheduled := [];
      currentSaveButton := None;
      targetLink := None;
      styleInjected := false;
      attached := [];
      autoHide := [];
      savesInFlight := 0;
      outbox := [];
      toasts := [];
      nextId := 0;
    }

    /** `cancelLongPress`: a remembered timer is cleared and forgotten. */
    method CancelLongPress()
      requires Valid()
      modifies this
      ensures Valid()
      ensures longPressTimer.None? && scheduled == []
      ensures currentSaveButton == old(currentSaveButton) && targetLink == old(targetLink)
      ensures attached == old(attached) && autoHide == old(autoHide) && styleInjected == old(styleInjected)
      ensures outbox == old(outbox) && toasts == old(toasts) && savesInFlight == old(savesInFlight)
      ensures nextId == old(nextId)
    {
      if longPressTimer.Some? {
        scheduled := [];
        longPressTimer := None;
      }
    }

    /** `startLongPress`: cancels any pending timer, then schedules one for this press. */
    method StartLongPress(x: real, y: real, link: Anchor)
      requires Valid()
      modifies this
      ensures Valid()
      ensures scheduled == [PendingPress(old(nextId), x, y, link)] && longPressTimer == Some(old(nextId))
      ensures nextId == old(nextId) + 1
      ensures currentSaveButton == old(currentSaveButton) && targetLink == old(targetLink)
      ensures attached == old(attached) && autoHide == old(autoHide) && styleInjected == old(styleInjected)
      ensures outbox == old(outbox) && toasts == old(toasts) && savesInFlight == old(savesInFlight)
    {
      CancelLongPress();
      var id := nextId;
      nextId := nextId + 1;
      longPressTimer := Some(id);
      scheduled := [PendingPress(id, x, y, link)];
    }

    /** `removeSaveButton`. */
    method RemoveSaveButton()
      requires Valid()
      modifies this
      ensures Valid()
      ensures currentSaveButton.None? && targetLink.None? && attached == []
      ensures longPressTimer == old(longPressTimer) && scheduled == old(scheduled)
      ensures autoHide == old(autoHide) && styleInjected == old(styleInjected)
      ensures outbox == old(outbox) && toasts == old(toasts) && savesInFlight == old(savesInFlight)
      ensures nextId == old(nextId)
    {
      if currentSaveButton.Some? {
        attached := [];
        currentSaveButton := None;
      }
      targetLink := None;
    }

    /** `showSaveButton`: injects the styles once, replaces any button by a new one at the
        clamped position, remembers it with its link and arms its auto-hide timer. */
    method ShowSaveButton(x: real, y: real, link: Anchor, innerWidth: real, innerHeight: real)
      requires Valid()
      modifies this
      ensures Valid()
      ensures styleInjected
      ensures currentSaveButton == Some(Button(old(nextId), ButtonLeft(x, innerWidth), ButtonTop(y, innerHeight), false))
      ensures targetLink == Some(link)
      ensures attached == [currentSaveButton.value]
      ensures autoHide == old(autoHide) + [old(nextId)]
      ensures nextId == old(nextId) + 1
      ensures longPressTimer == old(longPressTimer) && scheduled == old(scheduled)
      ensures outbox == old(outbox) && toasts == old(toasts) && savesInFlight == old(savesInFlight)
    {
      if !styleInjected {
        styleInjected := true;
      }
      RemoveSaveButton();
      var button := Button(nextId, ButtonLeft(x, innerWidth), ButtonTop(y, innerHeight), false);
      nextId := nextId + 1;
      attached := attached + [button];
      currentSaveButton := Some(button);
      targetLink := Some(link);
      autoHide := autoHide + [button.id];
    }

    /** `touchstart`: a press on a link starts the long-press timer. */
    method TouchStart(touch: Option<(real, real)>, target: Target)
      requires Valid()
      modifies this
      ensures Valid()
      ensures touch.Some? && FindLinkElement(target).Some? ==>
        && scheduled == [PendingPress(old(nextId), touch.value.0, touch.value.1, FindLinkElement(target).value)]
        && longPressTimer == Some(old(nextId)) && nextId == old(nextId) + 1
      ensures touch.None? || FindLinkElement(target).None? ==>
        scheduled == old(scheduled) && longPressTimer == old(longPressTimer) && nextId == old(nextId)
      ensures currentSaveButton == old(currentSaveButton) && attached == old(attached)
      ensures outbox == old(outbox) && toasts == old(toasts)
    {
      if touch.None? {
        return;
      }
      var link := FindLinkElement(target);
      if link.Some? {
        StartLongPress(touch.value.0, touch.value.1, link.value);
      }
    }

    /** `mousedown`: as a press, but only for the main button (0). */
    method MouseDown(button: int, x: real, y: real, target: Target)
      requires Valid()
      modifies this
      ensures Valid()
      ensures button == 0 && FindLinkElement(target).Some? ==>
        && scheduled == [PendingPress(old(nextId), x, y, FindLinkElement(target).value)]
        && longPressTimer == Some(old(nextId)) && nextId == old(nextId) + 1
      ensures button != 0 || FindLinkElement(target).None? ==>
        scheduled == old(scheduled) && longPressTimer == old(longPressTimer) && nextId == old(nextId)
      ensures currentSaveButton == old(currentSaveButton) && attached == old(attached)
      ensures outbox == old(outbox) && toasts == old(toasts)
    {
      if button != 0 {
        return;
      }
      var link := FindLinkElement(target);
      if link.Some? {
        StartLongPress(x, y, link.value);
      }
    }

    /** `touchend` and `touchcancel`. */
    method TouchEnd()
      requires Valid()
      modifies this
      ensures Valid()
      ensures scheduled == [] && longPressTimer.None?
      ensures currentSaveButton == old(currentSaveButton) && attached == old(attached)
      ensures outbox == old(outbox) && toasts == old(toasts)
    {
      CancelLongPress();
    }

    /** `touchmove`. */
    method TouchMove()
      requires Valid()
      modifies this
      ensures Valid()
      ensures scheduled == [] && longPressTimer.None?
      ensures currentSaveButton == old(currentSaveButton) && attached == old(attached)
      ensures outbox == old(outbox) && toasts == old(toasts)
    {
      CancelLongPress();
    }

    /** `mouseup`. */
    method MouseUp()
      requires Valid()
      modifies this
      ensures Valid()
      ensures scheduled == [] && longPressTimer.None?
      ensures currentSaveButton == old(currentSaveButton) && attached == old(attached)
      ensures outbox == old(outbox) && toasts == old(toasts)
    {
      CancelLongPress();
    }

    /** `mousemove`. */
    method MouseMove()
      requires Valid()
      modifies this
      ensures Valid()
      ensures scheduled == [] && longPressTimer.None?
      ensures currentSaveButton == old(currentSaveButton) && attached == old(attached)
      ensures outbox == old(outbox) && toasts == old(toasts)
    {
      CancelLongPress();
    }

    /** The long-press timer fires: the button is shown for the remembered press. The variable
        still holds the fired timer's id, as in the script. */
    method LongPressFires(innerWidth: real, innerHeight: real)
      requires Valid() && |scheduled| == 1
      modifies this
      ensures Valid()
      ensures scheduled == [] && longPressTimer == old(longPressTimer)
      ensures var press := old(scheduled[0]);
        && currentSaveButton == Some(Button(old(nextId), ButtonLeft(press.x, innerWidth), ButtonTop(press.y, innerHeight), false))
        && targetLink == Some(press.link)
      ensures attached == [currentSaveButton.value]
      ensures outbox == old(outbox) && toasts == old(toasts)
    {
      var press := scheduled[0];
      scheduled := [];
      ShowSaveButton(press.x, press.y, press.link, innerWidth, innerHeight);
    }

    /** The `k`-th armed auto-hide timer fires: it removes the button it was armed for only if
        it is still the current one. */
    method AutoHideFires(k: nat)
      requires Valid() && k < |autoHide|
      modifies this
      ensures Valid()
      ensures autoHide == old(autoHide[..k] + autoHide[k + 1..])
      ensures old(currentSaveButton).Some? && old(currentSaveButton).value.id == old(autoHide[k]) ==>
        currentSaveButton.None? && targetLink.None? && attached == []
      ensures !(old(currentSaveButton).Some? && old(currentSaveButton).value.id == old(autoHide[k])) ==>
        currentSaveButton == old(currentSaveButton) && targetLink == old(targetLink) && attached == old(attached)
      ensures scheduled == old(scheduled) && outbox == old(outbox) && toasts == old(toasts)
    {
      var buttonId := autoHide[k];
      autoHide := autoHide[..k] + autoHide[k + 1..];
      if currentSaveButton.Some? && currentSaveButton.value.id == buttonId {
        RemoveSaveButton();
      }
    }

    /** A click anywhere in the document outside the save button removes the button. */
    method DocumentClick(onSaveButton: bool)
      requires Valid()
      modifies this
      ensures Valid()
      ensures !onSaveButton ==> currentSaveButton.None? && targetLink.None? && attached == []
      ensures onSaveButton ==> currentSaveButton == old(currentSaveButton) && targetLink == old(targetLink)
      ensures scheduled == old(scheduled) && outbox == old(outbox) && toasts == old(toasts)
    {
      if !onSaveButton {
        RemoveSaveButton();
      }
    }

    /** The first half of `handleSaveClick`: without a target and a button nothing happens;
        otherwise the button shows its saving state and the link is sent to the background. */
    method SaveClick(pageHref: string)
      requires Valid()
      modifies this
      ensures Valid()
      ensures targetLink.None? || currentSaveButton.None? ==> outbox == old(outbox) && savesInFlight == old(savesInFlight)
      ensures old(targetLink).Some? && old(currentSaveButton).Some? ==>
        && outbox == old(outbox) + [SaveLinkMessage(old(targetLink).value.href, LinkTitle(old(targetLink).value), pageHref)]
        && savesInFlight == old(savesInFlight) + 1
        && currentSaveButton == Some(old(currentSaveButton).value.(saving := true))
      ensures targetLink == old(targetLink) && scheduled == old(scheduled) && toasts == old(toasts)
    {
      if targetLink.None? || currentSaveButton.None? {
        return;
      }
      var button := currentSaveButton.value.(saving := true);
      var link := targetLink.value;
      currentSaveButton := Some(button);
      attached := [button];
      outbox := outbox + [SaveLinkMessage(link.href, LinkTitle(link), pageHref)];
      savesInFlight := savesInFlight + 1;
    }

    /** The second half of `handleSaveClick`, when the background's reply arrives: a toast for
        the outcome, then the button is removed, whatever happened. */
    method SaveFinishes(reply: SaveReply)
      requires Valid() && savesInFlight > 0
      modifies this
      ensures Valid()
      ensures toasts == old(toasts) + [ToastFor(reply)]
      ensures currentSaveButton.None? && targetLink.None? && attached == []
      ensures savesInFlight == old(savesInFlight) - 1
      ensures scheduled == old(scheduled) && outbox == old(outbox)
    {
      toasts := toasts + [ToastFor(reply)];
      savesInFlight := savesInFlight - 1;
      RemoveSaveButton();
    }

    /** The toast listener: a `QUICKLINKS_TOAST` message is shown, with kind `info` when none
        is given. */
    method ToastMessage(msgType: string, message: string, toastType: string)
      requires Valid()
      modifies this
      ensures Valid()
      ensures msgType == "QUICKLINKS_TOAST" ==>
        toasts == old(toasts) + [Toast(message, if toastType != "" then toastType else "info")]
      ensures msgType != "QUICKLINKS_TOAST" ==> toasts == old(toasts)
      ensures currentSaveButton == old(currentSaveButton) && scheduled == old(scheduled) && outbox == old(outbox)
    {
      if msgType == "QUICKLINKS_TOAST" {
        toasts := toasts + [Toast(message, if toastType != "" then toastType else "info")];
      }
    }
  }
}
