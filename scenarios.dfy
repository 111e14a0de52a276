/**
 * Call sequences on the widget, each stating what a page observes after
 * it. Every claim follows from the contracts of `Modal` alone.
 */
module Scenarios {
  import opened Options
  import opened Dom
  import opened Modals

  /** Options with both callbacks supplied and everything else left to its default. */
  const WithCallbacks := RawOptions(None, None, None, None, true, true)
  /** `{destroyOnClose: false}`. */
  const KeepOnClose := RawOptions(Some(false), None, None, None, false, false)
  /** `{destroyOnClose: false, footer: true, closeMethods: []}`: a footer, and no way to close but a call. */
  const FooterOptions := RawOptions(Some(false), Some(true), Some([]), None, false, false)
  /** `{closeMethods: ["button", "overlay"]}`: Escape is not a way to close. */
  const NoEscape := RawOptions(None, None, Some([Str("button"), Str("overlay")]), None, false, false)

  // The configurations the options above resolve to (see ResolvedConfigs).
  const DefaultConfig := Config(true, false, true, true, true, [], false, false)
  const CallbackConfig := Config(true, false, true, true, true, [], true, true)
  const KeepConfig := Config(false, false, true, true, true, [], false, false)
  const FooterConfig := Config(false, true, false, false, false, [], false, false)
  const NoEscapeConfig := Config(true, false, true, true, false, [], false, false)

  /** What the scenarios' options resolve to. */
  lemma ResolvedConfigs()
    ensures Resolve(NoOptions) == DefaultConfig
    ensures Resolve(WithCallbacks) == CallbackConfig
    ensures Resolve(KeepOnClose) == KeepConfig
    ensures Resolve(FooterOptions) == FooterConfig
    ensures Resolve(NoEscape) == NoEscapeConfig
  {
  }

  /**
   * Open A, open B, finish closing B: the scroll lock stays, because A is
   * still on the shared array. Finish closing A: the lock is released.
   */
  method NestedScrollLock() returns (lockedAfterInner: bool, lockedAfterOuter: bool)
    ensures lockedAfterInner && !lockedAfterOuter
  {
    var page := new Page();
    var a := new Modal(page, DefaultConfig);
    var b := new Modal(page, DefaultConfig);
    a.Open();
    assert a.built && page.stack == [a];
    b.Open();
    assert a.built && page.stack == [a, b] && page.noScroll;
    var r := b.Close(None);
    assert b.pending == AfterClose(true) && page.stack == [a];
    b.TransitionEnd(TransformProperty);
    lockedAfterInner := page.noScroll;
    assert a.built && page.stack == [a];
    r := a.Close(None);
    assert a.pending == AfterClose(true) && page.stack == [];
    a.TransitionEnd(TransformProperty);
    lockedAfterOuter := page.noScroll;
  }

  /** With A then B open, Escape reaching A's handler does nothing; reaching B's, it closes B. */
  method EscapeClosesTopOnly() returns (a: Modal, b: Modal, afterLower: seq<Modal>, afterTop: seq<Modal>)
    ensures afterLower == [a, b] && afterTop == [a]
  {
    var page := new Page();
    a := new Modal(page, DefaultConfig);
    b := new Modal(page, DefaultConfig);
    a.Open();
    b.Open();
    var r := a.HandleEscapeKey(EscapeKey);
    afterLower := page.stack;
    r := b.HandleEscapeKey(EscapeKey);
    afterTop := page.stack;
  }

  /** Without "escape" among the close methods, no handler is registered and Escape leaves the dialog open. */
  method EscapeDisabled() returns (m: Modal, afterEscape: seq<Modal>, listening: set<Modal>)
    ensures afterEscape == [m] && listening == {}
  {
    var page := new Page();
    m := new Modal(page, NoEscapeConfig);
    m.Open();
    assert page.stack == [m] && page.keydownListeners == {};
    var r := m.HandleEscapeKey(EscapeKey);
    afterEscape := page.stack;
    listening := page.keydownListeners;
  }

  /**
   * With A then B open, closing A removes B's entry instead, so B no longer
   * reacts to Escape while A, still listed, has lost its escape handler.
   */
  method CloseRemovesLastEntry() returns (a: Modal, b: Modal, afterClose: seq<Modal>, afterEscape: seq<Modal>, listening: set<Modal>)
    ensures afterClose == [a] && afterEscape == [a] && listening == {b}
  {
    var page := new Page();
    a := new Modal(page, DefaultConfig);
    b := new Modal(page, DefaultConfig);
    a.Open();
    b.Open();
    var r := a.Close(None);
    afterClose := page.stack;
    r := b.HandleEscapeKey(EscapeKey);
    afterEscape := page.stack;
    listening := page.keydownListeners;
  }

  /**
   * Opening one instance twice lists it twice but registers its escape
   * handler once; one close then leaves it listed with no handler.
   */
  method OpenTwice() returns (m: Modal, afterOpens: seq<Modal>, afterClose: seq<Modal>, listening: set<Modal>)
    ensures afterOpens == [m, m] && afterClose == [m] && listening == {}
  {
    var page := new Page();
    m := new Modal(page, DefaultConfig);
    m.Open();
    m.Open();
    afterOpens := page.stack;
    var r := m.Close(None);
    afterClose := page.stack;
    listening := page.keydownListeners;
  }

  /**
   * Closing before the opening transition has ended replaces the pending
   * continuation: only `onClose` ever runs, and a transition of another
   * property runs nothing.
   */
  method LastContinuationWins() returns (m: Modal, afterOther: seq<Notice>, afterTransform: seq<Notice>, stillBuilt: bool)
    ensures afterOther == [] && afterTransform == [OnCloseCalled(m)] && !stillBuilt
  {
    var page := new Page();
    m := new Modal(page, CallbackConfig);
    m.Open();
    assert m.built && page.notices == [];
    var r := m.Close(None);
    assert m.built && m.pending == AfterClose(true) && page.notices == [];
    m.TransitionEnd("opacity");
    assert m.built && m.pending == AfterClose(true);
    afterOther := page.notices;
    m.TransitionEnd(TransformProperty);
    afterTransform := page.notices;
    stillBuilt := m.built;
  }

  /**
   * Reopening after `destroy` but before its transition has ended keeps the
   * old subtree: the open continuation replaced the destroying one.
   */
  method ReopenBeforeDestroyCompletes() returns (m: Modal, built: bool, notices: seq<Notice>)
    ensures built && notices == [OnOpenCalled(m)]
  {
    var page := new Page();
    m := new Modal(page, CallbackConfig);
    m.Open();
    assert m.built && page.notices == [];
    var r := m.Destroy();
    assert m.built && page.notices == [];
    m.Open();
    assert m.built && m.pending == AfterOpen && page.notices == [];
    m.TransitionEnd(TransformProperty);
    built := m.built;
    notices := page.notices;
  }

  /**
   * A footer with one button, opened. Setting content while it is shown
   * replaces all of the footer's children, the button included.
   */
  method FooterContentWhileOpen() returns (atOpen: seq<FooterNode>, afterContent: seq<FooterNode>)
    ensures atOpen == [ButtonNode(Button(0, "Cancel", "modal-btn", true))]
    ensures afterContent == [Markup("<h2>Hello</h2>")]
  {
    var page := new Page();
    var m := new Modal(page, FooterConfig);
    var cancel := Button(0, "Cancel", "modal-btn", true);
    m.AddFooterButton("Cancel", "modal-btn", true);
    assert m.footerButtons == [cancel];
    m.Open();
    assert Nodes([cancel]) == [ButtonNode(cancel)];
    atOpen := m.footerNodes;
    m.SetFooterContent("<h2>Hello</h2>");
    afterContent := m.footerNodes;
  }

  /**
   * Continuing from there, closing without destroying keeps that footer, and
   * the next open shows it as it was left.
   */
  method FooterReusedAfterClose() returns (afterReopen: seq<FooterNode>, builds: nat)
    ensures afterReopen == [Markup("<h2>Hello</h2>")] && builds == 1
  {
    var page := new Page();
    var m := new Modal(page, FooterConfig);
    m.AddFooterButton("Cancel", "modal-btn", true);
    m.Open();
    m.SetFooterContent("<h2>Hello</h2>");
    var r := m.Close(None);
    m.TransitionEnd(TransformProperty);
    assert m.built && m.footerNodes == [Markup("<h2>Hello</h2>")];
    m.Open();
    afterReopen := m.footerNodes;
    builds := m.builds;
  }

  /**
   * Continuing from there, destroying removes the footer, and the next open
   * rebuilds it from the stored content followed by the button list.
   */
  method FooterRebuiltAfterDestroy() returns (afterReopen: seq<FooterNode>, builds: nat)
    ensures afterReopen == [Markup("<h2>Hello</h2>"), ButtonNode(Button(0, "Cancel", "modal-btn", true))]
    ensures builds == 2
  {
    var page := new Page();
    var m := new Modal(page, FooterConfig);
    var cancel := Button(0, "Cancel", "modal-btn", true);
    m.AddFooterButton("Cancel", "modal-btn", true);
    m.Open();
    m.SetFooterContent("<h2>Hello</h2>");
    var r := m.Destroy();
    m.TransitionEnd(TransformProperty);
    assert !m.built && m.footerContent == Some("<h2>Hello</h2>") && m.footerButtons == [cancel];
    m.Open();
    assert Nodes([cancel]) == [ButtonNode(cancel)];
    afterReopen := m.footerNodes;
    builds := m.builds;
  }

  /**
   * The timer that adds "show" is not cancelled by `close`: with
   * `destroyOnClose: false`, a dialog closed before the timer runs ends up
   * shown while off the shared array.
   */
  method ShowAfterClose() returns (shown: bool, onStack: bool)
    ensures shown && !onStack
  {
    var page := new Page();
    var m := new Modal(page, KeepConfig);
    m.Open();
    assert m.built && m.scheduledShows == 1 && page.stack == [m];
    var r := m.Close(None);
    assert m.built && m.scheduledShows == 1 && page.stack == [];
    r := m.Tick();
    shown := m.shown;
    onStack := m in page.stack;
  }

  /**
   * `destroy` right after `open`, in the usual order: the timer runs first and
   * shows the backdrop, which still exists; the end of the transition the
   * timer started then removes it.
   */
  method ShowBeforeDestroyEnds() returns (outcome: Outcome, shownByTimer: bool, builtAfterEnd: bool)
    ensures outcome == Done && shownByTimer && !builtAfterEnd
  {
    var page := new Page();
    var m := new Modal(page, DefaultConfig);
    m.Open();
    assert m.built && m.scheduledShows == 1;
    var r := m.Destroy();
    assert m.built && m.pending == AfterClose(true) && m.scheduledShows == 1;
    outcome := m.Tick();
    assert m.built && m.pending == AfterClose(true);
    shownByTimer := m.shown;
    m.TransitionEnd(TransformProperty);
    builtAfterEnd := m.built;
  }

  /**
   * Destroyed, with the destroy's transition ending before the timer runs
   * (possible only when an earlier transition was still running at `destroy`):
   * the timer then fails on the null backdrop.
   */
  method ShowAfterDestroy() returns (outcome: Outcome)
    ensures outcome == TypeError
  {
    var page := new Page();
    var m := new Modal(page, DefaultConfig);
    m.Open();
    assert m.built && m.scheduledShows == 1;
    var r := m.Destroy();
    assert m.pending == AfterClose(true) && m.scheduledShows == 1;
    m.TransitionEnd(TransformProperty);
    assert !m.built && m.scheduledShows == 1;
    outcome := m.Tick();
  }

  /**
   * Closing an instance that was never opened still pops the shared array
   * (here removing another open instance) and then fails on the null backdrop.
   */
  method CloseNeverOpened() returns (outcome: Outcome, after: seq<Modal>)
    ensures outcome == TypeError && after == []
  {
    var page := new Page();
    var a := new Modal(page, DefaultConfig);
    var b := new Modal(page, DefaultConfig);
    a.Open();
    assert !b.built && page.stack == [a];
    outcome := b.Close(None);
    after := page.stack;
  }

  /** The demo's `cssClass: ["class1", "class2", "classN", 123]`: the number is skipped. */
  lemma DemoContainerClasses()
    ensures ContainerClasses([Str("class1"), Str("class2"), Str("classN"), Num(123)])
            == ["modal-container", "class1", "class2", "classN"]
  {
    var xs := [Str("class1"), Str("class2"), Str("classN"), Num(123)];
    assert "class1" != ContainerClass by { assert |"class1"| != |ContainerClass|; }
    assert "class2" !in [ContainerClass, "class1"] by { assert "class2"[5] != "class1"[5]; }
    assert "classN" !in [ContainerClass, "class1", "class2"] by {
      assert "classN"[5] != "class1"[5] && "classN"[5] != "class2"[5];
    }
    assert xs[..1] == [Str("class1")] && [Str("class1")][..0] == [];
    assert xs[..2][..1] == xs[..1];
    assert xs[..3][..2] == xs[..2];
    assert xs[..4][..3] == xs[..3] && xs[..4] == xs;
    assert ContainerClasses(xs[..1]) == [ContainerClass, "class1"];
    assert ContainerClasses(xs[..2]) == [ContainerClass, "class1", "class2"];
    assert ContainerClasses(xs[..3]) == [ContainerClass, "class1", "class2", "classN"];
  }
}
