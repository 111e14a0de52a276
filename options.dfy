/**
 * Constructor options of the modal widget: the JavaScript values they may
 * hold, the defaults the constructor's destructuring applies, and the two
 * pure decodings done on them (close methods and extra container classes).
 */
module Options {

  /** The usual optional value; `None` stands for a missing (undefined) property. */
  datatype Option<T> = None | Some(value: T) {
    function GetOr(default: T): T {
      match this
      case Some(v) => v
      case None => default
    }
  }

  /** A JavaScript value as it may appear inside an options array. */
  datatype Value = Str(s: string) | Num(n: int) | Bool(b: bool) | Null | Undefined

  /**
   * The options object as the caller writes it. A `None` field is a property
   * the caller left out; `onOpen`/`onClose` say whether a function was given.
   */
  datatype RawOptions = RawOptions(
    destroyOnClose: Option<bool>,
    footer: Option<bool>,
    closeMethods: Option<seq<Value>>,
    cssClass: Option<seq<Value>>,
    onOpen: bool,
    onClose: bool)

  /** The configuration an instance keeps after construction. */
  datatype Config = Config(
    destroyOnClose: bool,
    footer: bool,
    allowButtonClose: bool,
    allowBackdropClose: bool,
    allowEscapeClose: bool,
    cssClass: seq<Value>,
    hasOnOpen: bool,
    hasOnClose: bool)

  /** `new Modal({})`: every property left out. */
  const NoOptions := RawOptions(None, None, None, None, false, false)

  const DefaultCloseMethods: seq<Value> := [Str("button"), Str("overlay"), Str("escape")]

  /** Destructuring with defaults, then `closeMethods.includes(...)` for each of the three methods. */
  function Resolve(o: RawOptions): (c: Config)
    ensures o.destroyOnClose.None? ==> c.destroyOnClose
    ensures o.destroyOnClose.Some? ==> c.destroyOnClose == o.destroyOnClose.value
    ensures o.footer.None? ==> !c.footer
    ensures o.footer.Some? ==> c.footer == o.footer.value
    ensures o.closeMethods.None? ==> c.allowButtonClose && c.allowBackdropClose && c.allowEscapeClose
    ensures o.closeMethods.Some? ==>
              (c.allowButtonClose <==> Str("button") in o.closeMethods.value) &&
              (c.allowBackdropClose <==> Str("overlay") in o.closeMethods.value) &&
              (c.allowEscapeClose <==> Str("escape") in o.closeMethods.value)
    ensures o.cssClass.None? ==> c.cssClass == []
    ensures o.cssClass.Some? ==> c.cssClass == o.cssClass.value
    ensures c.hasOnOpen == o.onOpen && c.hasOnClose == o.onClose
  {
    var methods := o.closeMethods.GetOr(DefaultCloseMethods);
    Config(
      o.destroyOnClose.GetOr(true),
      o.footer.GetOr(false),
      Str("button") in methods,
      Str("overlay") in methods,
      Str("escape") in methods,
      o.cssClass.GetOr([]),
      o.onOpen,
      o.onClose)
  }

  /** The strings a single array entry contributes: itself if `typeof` says "string", nothing otherwise. */
  function EntryStrings(v: Value): seq<string> {
    match v
    case Str(t) => [t]
    case _ => []
  }

  /** The string entries of an options array, in their original order. */
  function StringEntries(xs: seq<Value>): seq<string> {
    if xs == [] then [] else EntryStrings(xs[0]) + StringEntries(xs[1..])
  }

  /** Filtering distributes over concatenation, so it keeps relative order. */
  lemma {:induction false} StringEntriesAppend(xs: seq<Value>, ys: seq<Value>)
    ensures StringEntries(xs + ys) == StringEntries(xs) + StringEntries(ys)
  {
    if xs == [] {
      assert xs + ys == ys;
    } else {
      assert (xs + ys)[1..] == xs[1..] + ys;
      StringEntriesAppend(xs[1..], ys);
    }
  }

  /** A string is kept exactly when it occurs as a string entry; nothing else is kept. */
  lemma {:induction false} StringEntriesMembers(xs: seq<Value>)
    ensures forall t :: t in StringEntries(xs) <==> Str(t) in xs
  {
    if xs != [] {
      StringEntriesMembers(xs[1..]);
      assert xs == [xs[0]] + xs[1..];
    }
  }

  /** An array of strings only is kept whole and in order. */
  lemma {:induction false} StringEntriesOfStrings(xs: seq<Value>)
    requires forall i :: 0 <= i < |xs| ==> xs[i].Str?
    ensures |StringEntries(xs)| == |xs|
    ensures forall i :: 0 <= i < |xs| ==> StringEntries(xs)[i] == xs[i].s
  {
    if xs != [] {
      StringEntriesOfStrings(xs[1..]);
    }
  }
}
