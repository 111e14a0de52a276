/**
 * The modal widget: one `Page` holds what the instances share (the array of
 * open instances, the body's scroll lock, the document's keydown listeners
 * and a record of the user callbacks invoked), and one `Modal` per dialog
 * holds its configuration and the state of its backdrop subtree.
 *
 * The DOM is reduced to what the widget reads back: whether the backdrop
 * exists, whether it carries the "show" class, which handlers are installed
 * on it, the container's classes and the footer's children. The zero-delay
 * timer and the transition-end event are methods the environment calls.
 */
module Modals {
  import opened Options
  import opened Dom
  import opened OpenStack

  /** What the backdrop's `ontransitionend` handler runs once its property filter passes. */
  datatype Continuation = NoHandler | AfterOpen | AfterClose(destroy: bool)

  /** A user callback the widget invoked, in invocation order. */
  datatype Notice = OnOpenCalled(modal: Modal) | OnCloseCalled(modal: Modal)

  /** How a call ended: normally, or with the TypeError of reading a property of a null backdrop. */
  datatype Outcome = Done | TypeError

  const EscapeKey: string := "Escape"
  const TransformProperty: string := "transform"

  /** What the instances share: the document body and `Modal.elements`. */
  class Page {
    /** `Modal.elements`: one entry per `open`, minus the last entry for each `close`, oldest first. */
    var stack: seq<Modal>
    /** The "no-scroll" class on the body. */
    var noScroll: bool
    /** The instances whose escape handler is registered on the document. */
    var keydownListeners: set<Modal>
    /** The `onOpen`/`onClose` callbacks invoked so far. */
    var notices: seq<Notice>

    constructor ()
      ensures stack == [] && !noScroll && keydownListeners == {} && notices == []
    {
      stack := [];
      noScroll := false;
      keydownListeners := {};
      notices := [];
    }
  }

  /** The result of the constructor: a working instance, or an inert one when the template is missing. */
  datatype Construction = Inert | Live(modal: Modal)

  /** `new Modal(options)` where `templateExists` says whether `#templateId` matched an element. */
  method NewModal(page: Page, options: RawOptions, templateExists: bool) returns (r: Construction)
    ensures r.Live? <==> templateExists
    ensures r.Live? ==> fresh(r.modal) && r.modal.Valid() && r.modal.page == page
    ensures r.Live? ==> r.modal.config == Resolve(options) && !r.modal.built
    ensures r.Live? ==> r.modal.footerButtons == [] && r.modal.footerContent == None && r.modal.scheduledShows == 0
  {
    if !templateExists {
      return Inert;
    }
    var m := new Modal(page, Resolve(options));
    r := Live(m);
  }

  lemma IdsMakeDistinct(bs: seq<Button>)
    requires forall i :: 0 <= i < |bs| ==> bs[i].id == i
    ensures NoDuplicates(bs)
  {
  }

  /**
   * Whether the footer holds its markup with all earlier buttons or the
   * markup alone, re-appending the extended button list shows the markup
   * followed by every button.
   */
  lemma FooterAfterAdd(text: string, nodes: seq<FooterNode>, before: seq<Button>, buttons: seq<Button>)
    requires forall i :: 0 <= i < |buttons| ==> buttons[i].id == i
    requires |buttons| == |before| + 1 && buttons[..|before|] == before
    requires nodes == MarkupNodes(text) + Nodes(before) || nodes == MarkupNodes(text)
    ensures AppendAll(nodes, buttons) == MarkupNodes(text) + Nodes(buttons)
  {
    IdsMakeDistinct(buttons);
    if nodes == MarkupNodes(text) + Nodes(before) {
      assert forall x :: x in before ==> x in buttons;
      FooterRerender(text, before, buttons);
    } else {
      assert nodes == MarkupNodes(text) + Nodes([]);
      FooterRerender(text, [], buttons);
    }
  }

  /** The footer that `build` creates: the content as markup, then one append per button. */
  method RenderFooter(text: string, buttons: seq<Button>) returns (nodes: seq<FooterNode>)
    requires forall i :: 0 <= i < |buttons| ==> buttons[i].id == i
    ensures nodes == MarkupNodes(text) + Nodes(buttons)
  {
    nodes := AppendButtons(MarkupNodes(text), buttons);
    IdsMakeDistinct(buttons);
    FooterRerender(text, [], buttons);
    assert MarkupNodes(text) + Nodes([]) == MarkupNodes(text);
  }

  class Modal {
    const page: Page
    const config: Config

    /** `_backdrop` is not null. */
    var built: bool
    /** The backdrop carries the "show" class. */
    var shown: bool
    var containerClasses: seq<string>
    /** The container holds the close button. */
    var hasCloseButton: bool
    /** `_backdrop.onclick` is installed. */
    var backdropClick: bool
    /** `_backdrop.ontransitionend`. */
    var pending: Continuation
    /** Zero-delay timers set by `open` that have not yet run. */
    var scheduledShows: nat
    /** `_modalFooter` is not null. */
    var hasFooter: bool
    var footerNodes: seq<FooterNode>
    /** `_footerContent`; `None` until `setFooterContent` is first called. */
    var footerContent: Option<string>
    /** `_footerButtons`, in `addFooterButton` call order. */
    var footerButtons: seq<Button>
    /** How many times `build` has run (a record kept by the model, not a field of the source). */
    var builds: nat

    /** The footer content as `build` tests it: an unset content and an empty one are both falsy. */
    function FooterText(): string
      reads this
    {
      footerContent.GetOr("")
    }

    ghost predicate Valid()
      reads this
    {
      && (forall i :: 0 <= i < |footerButtons| ==> footerButtons[i].id == i)
      && (built ==>
            && containerClasses == ContainerClasses(config.cssClass)
            && hasCloseButton == config.allowButtonClose
            && hasFooter == config.footer)
      && (!built ==> !shown && !hasFooter && !backdropClick && pending == NoHandler)
      && (backdropClick ==> config.allowBackdropClose)
      && (hasFooter ==>
            || footerNodes == MarkupNodes(FooterText()) + Nodes(footerButtons)
            || footerNodes == MarkupNodes(FooterText()))
    }

    constructor (page: Page, config: Config)
      ensures Valid() && this.page == page && this.config == config
      ensures !built && footerButtons == [] && footerContent == None && scheduledShows == 0 && builds == 0
    {
      this.page := page;
      this.config := config;
      built := false;
      shown := false;
      containerClasses := [];
      hasCloseButton := false;
      backdropClick := false;
      pending := NoHandler;
      scheduledShows := 0;
      hasFooter := false;
      footerNodes := [];
      footerContent := None;
      footerButtons := [];
      builds := 0;
    }

    /** `build`: a fresh backdrop subtree, with no handlers yet and without the "show" class. */
    method Build()
      requires Valid() && !built
      modifies this
      ensures Valid() && built && !shown && !backdropClick && pending == NoHandler
      ensures hasFooter ==> footerNodes == MarkupNodes(FooterText()) + Nodes(footerButtons)
      ensures builds == old(builds) + 1
      ensures footerContent == old(footerContent) && footerButtons == old(footerButtons)
      ensures scheduledShows == old(scheduledShows)
    {
      var classes := BuildContainerClasses(config.cssClass);
      var nodes := footerNodes;
      if config.footer {
        nodes := RenderFooter(FooterText(), footerButtons);
      }
      containerClasses, hasCloseButton, hasFooter, footerNodes := classes, config.allowButtonClose, config.footer, nodes;
      built, shown, backdropClick, pending, builds := true, false, false, NoHandler, builds + 1;
      assert footerButtons == old(footerButtons) && footerContent == old(footerContent);
    }

    /**
     * `open`: push onto the shared array (even when already on it), build
     * the subtree only if there is none, lock scrolling, schedule the "show"
     * class, install the handlers and make `onOpen` the pending continuation.
     */
    method Open()
      requires Valid()
      modifies this, page`stack, page`noScroll, page`keydownListeners
      ensures Valid()
      ensures page.stack == old(page.stack) + [this]
      ensures page.noScroll
      ensures page.keydownListeners ==
                if config.allowEscapeClose then old(page.keydownListeners) + {this} else old(page.keydownListeners)
      ensures built && builds == if old(built) then old(builds) else old(builds) + 1
      ensures old(built) ==> shown == old(shown) && hasFooter == old(hasFooter) && footerNodes == old(footerNodes)
      ensures !old(built) ==> !shown && (hasFooter ==> footerNodes == MarkupNodes(FooterText()) + Nodes(footerButtons))
      ensures backdropClick == config.allowBackdropClose
      ensures pending == AfterOpen
      ensures scheduledShows == old(scheduledShows) + 1
      ensures footerContent == old(footerContent) && footerButtons == old(footerButtons)
    {
      page.stack := page.stack + [this];
      if !built {
        Build();
      }
      page.noScroll := true;
      scheduledShows := scheduledShows + 1;
      if config.allowBackdropClose {
        backdropClick := true;
      }
      if config.allowEscapeClose {
        page.keydownListeners := page.keydownListeners + {this};
      }
      pending := AfterOpen;
    }

    /**
     * The effect of `close(d)`: the shared array loses its last entry whoever
     * it is; then, if there is no backdrop, the call fails there; otherwise
     * "show" is removed, the escape handler is unregistered (when escape
     * closing is enabled) and the close continuation becomes the pending one.
     */
    twostate predicate ClosedWith(d: bool, r: Outcome)
      reads this, page
    {
      && page.stack == Pop(old(page.stack))
      && if old(built) then
           && r == Done
           && !shown
           && pending == AfterClose(d)
           && page.keydownListeners ==
                if config.allowEscapeClose then old(page.keydownListeners) - {this} else old(page.keydownListeners)
         else
           && r == TypeError
           && shown == old(shown)
           && pending == old(pending)
           && page.keydownListeners == old(page.keydownListeners)
    }

    /** `close(destroy)`; a missing argument takes the `destroyOnClose` option. */
    method Close(destroy: Option<bool>) returns (r: Outcome)
      requires Valid()
      modifies page`stack, page`keydownListeners, this`shown, this`pending
      ensures Valid()
      ensures ClosedWith(destroy.GetOr(config.destroyOnClose), r)
    {
      var isDestroyed := destroy.GetOr(config.destroyOnClose);
      page.stack := Pop(page.stack);
      if !built {
        return TypeError;
      }
      shown := false;
      if config.allowEscapeClose {
        page.keydownListeners := page.keydownListeners - {this};
      }
      pending := AfterClose(isDestroyed);
      r := Done;
    }

    /** `destroy`: `close(true)`. */
    method Destroy() returns (r: Outcome)
      requires Valid()
      modifies page`stack, page`keydownListeners, this`shown, this`pending
      ensures Valid()
      ensures ClosedWith(true, r)
    {
      r := Close(Some(true));
    }

    /**
     * A keydown on the document, as far as this instance is concerned: it
     * reaches `_handleEscapeKey` only while that handler is registered, and
     * the handler closes this instance only for the Escape key and only when
     * it is last on the shared array.
     */
    method HandleEscapeKey(key: string) returns (r: Outcome)
      requires Valid()
      modifies page`stack, page`keydownListeners, this`shown, this`pending
      ensures Valid()
      ensures old(this in page.keydownListeners) && key == EscapeKey && Top(old(page.stack)) == Some(this) ==>
                ClosedWith(config.destroyOnClose, r)
      ensures !(old(this in page.keydownListeners) && key == EscapeKey && Top(old(page.stack)) == Some(this)) ==>
                r == Done && unchanged(this, page)
    {
      r := Done;
      if this in page.keydownListeners && key == EscapeKey && Top(page.stack) == Some(this) {
        r := Close(None);
      }
    }

    /** A click on the close button, which exists only in a built subtree with button closing enabled. */
    method ClickCloseButton() returns (r: Outcome)
      requires Valid()
      modifies page`stack, page`keydownListeners, this`shown, this`pending
      ensures Valid()
      ensures old(built && hasCloseButton) ==> ClosedWith(config.destroyOnClose, r)
      ensures !old(built && hasCloseButton) ==> r == Done && unchanged(this, page)
    {
      r := Done;
      if built && hasCloseButton {
        r := Close(None);
      }
    }

    /**
     * A click that reaches the backdrop; `onBackdrop` says whether its target
     * is the backdrop itself rather than something inside the container.
     */
    method ClickBackdrop(onBackdrop: bool) returns (r: Outcome)
      requires Valid()
      modifies page`stack, page`keydownListeners, this`shown, this`pending
      ensures Valid()
      ensures old(built && backdropClick) && onBackdrop ==> ClosedWith(config.destroyOnClose, r)
      ensures !(old(built && backdropClick) && onBackdrop) ==> r == Done && unchanged(this, page)
    {
      r := Done;
      if built && backdropClick && onBackdrop {
        r := Close(None);
      }
    }

    /**
     * One zero-delay timer set by `open` runs: it adds "show" to whatever
     * `_backdrop` is at that moment, failing when it is null.
     */
    method Tick() returns (r: Outcome)
      requires Valid()
      modifies this`shown, this`scheduledShows
      ensures Valid()
      ensures old(scheduledShows) == 0 ==> r == Done && unchanged(this)
      ensures old(scheduledShows) > 0 ==> scheduledShows == old(scheduledShows) - 1
      ensures old(scheduledShows) > 0 && built ==> r == Done && shown
      ensures old(scheduledShows) > 0 && !built ==> r == TypeError && shown == old(shown)
    {
      r := Done;
      if scheduledShows > 0 {
        scheduledShows := scheduledShows - 1;
        if built {
          shown := true;
        } else {
          r := TypeError;
        }
      }
    }

    /**
     * A `transitionend` event with the given property name reaches the
     * backdrop. Only "transform" passes the filter, and then the pending
     * continuation runs; it stays installed afterwards. The close continuation
     * removes the subtree when asked to, calls `onClose`, and releases the
     * scroll lock exactly when the shared array is empty at that moment.
     */
    method TransitionEnd(propertyName: string)
      requires Valid()
      modifies this`built, this`shown, this`backdropClick, this`pending, this`hasFooter
      modifies page`noScroll, page`notices
      ensures Valid()
      ensures !old(built) || propertyName != TransformProperty || old(pending) == NoHandler ==>
                unchanged(this, page)
      ensures old(built) && propertyName == TransformProperty && old(pending) == AfterOpen ==>
                && unchanged(this)
                && page.noScroll == old(page.noScroll)
                && page.notices == old(page.notices) + if config.hasOnOpen then [OnOpenCalled(this)] else []
      ensures old(built) && propertyName == TransformProperty && old(pending).AfterClose? ==>
                && (old(pending).destroy ==> !built && !hasFooter)
                && (!old(pending).destroy ==> unchanged(this))
                && page.notices == old(page.notices) + (if config.hasOnClose then [OnCloseCalled(this)] else [])
                && page.noScroll == (old(page.noScroll) && page.stack != [])
    {
      if !built || propertyName != TransformProperty {
        return;
      }
      match pending {
        case NoHandler =>
        case AfterOpen =>
          if config.hasOnOpen {
            page.notices := page.notices + [OnOpenCalled(this)];
          }
        case AfterClose(d) =>
          if d {
            built := false;
            shown := false;
            backdropClick := false;
            pending := NoHandler;
            hasFooter := false;
          }
          if config.hasOnClose {
            page.notices := page.notices + [OnCloseCalled(this)];
          }
          if page.stack == [] {
            page.noScroll := false;
          }
      }
    }

    /** `setFooterContent`: store the markup, and when a footer exists replace all of its children with it. */
    method SetFooterContent(html: string)
      requires Valid()
      modifies this`footerContent, this`footerNodes
      ensures Valid()
      ensures footerContent == Some(html)
      ensures hasFooter ==> footerNodes == MarkupNodes(html)
      ensures !hasFooter ==> footerNodes == old(footerNodes)
    {
      footerContent := Some(html);
      if hasFooter {
        footerNodes := MarkupNodes(html);
      }
    }

    /**
     * `addFooterButton`: record a new button at the end of the list, and when
     * a footer exists append every button of the list to it again.
     */
    method AddFooterButton(title: string, cssClass: string, hasCallback: bool)
      requires Valid()
      modifies this`footerButtons, this`footerNodes
      ensures Valid()
      ensures footerButtons == old(footerButtons) + [Button(|old(footerButtons)|, title, cssClass, hasCallback)]
      ensures hasFooter ==> footerNodes == MarkupNodes(FooterText()) + Nodes(footerButtons)
      ensures !hasFooter ==> footerNodes == old(footerNodes)
    {
      var buttons := footerButtons + [Button(|footerButtons|, title, cssClass, hasCallback)];
      assert forall i :: 0 <= i < |buttons| ==> buttons[i].id == i;
      if hasFooter {
        var nodes := AppendButtons(footerNodes, buttons);
        FooterAfterAdd(FooterText(), footerNodes, footerButtons, buttons);
        footerNodes := nodes;
      }
      footerButtons := buttons;
    }
  }
}
