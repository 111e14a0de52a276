/**
 * The two pieces of DOM that the widget builds step by step: the container's
 * class list (a DOMTokenList, where adding a token already present does
 * nothing) and the footer's child list (where appending a node that is
 * already a child moves it to the end).
 */
module Dom {
  import opened Options

  predicate NoDuplicates<T(==)>(s: seq<T>) {
    forall i, j :: 0 <= i < j < |s| ==> s[i] != s[j]
  }

  // ----- The container's class list -----

  const ContainerClass: string := "modal-container"

  /** `classList.add(t)`. */
  function AddToken(list: seq<string>, t: string): seq<string> {
    if t in list then list else list + [t]
  }

  /**
   * The container's classes after `className = "modal-container"` and one
   * `classList.add` for each string entry of `cssClass`, taken in order.
   */
  function ContainerClasses(cssClass: seq<Value>): seq<string>
    decreases |cssClass|
  {
    if cssClass == [] then [ContainerClass]
    else
      var prev := ContainerClasses(cssClass[..|cssClass| - 1]);
      match cssClass[|cssClass| - 1]
      case Str(t) => AddToken(prev, t)
      case _ => prev
  }

  /** The loop of `build` that applies the extra classes. */
  method BuildContainerClasses(cssClass: seq<Value>) returns (classes: seq<string>)
    ensures classes == ContainerClasses(cssClass)
  {
    classes := [ContainerClass];
    for i := 0 to |cssClass|
      invariant classes == ContainerClasses(cssClass[..i])
    {
      assert cssClass[..i + 1][..i] == cssClass[..i];
      match cssClass[i] {
        case Str(t) => classes := AddToken(classes, t);
        case _ =>
      }
    }
    assert cssClass[..|cssClass|] == cssClass;
  }

  /** The container carries its own class and exactly the string entries of `cssClass`. */
  lemma {:induction false} ContainerClassesMembers(cssClass: seq<Value>)
    ensures forall t :: t in ContainerClasses(cssClass) <==> t == ContainerClass || Str(t) in cssClass
  {
    if cssClass != [] {
      var n := |cssClass|;
      var prev := cssClass[..n - 1];
      ContainerClassesMembers(prev);
      assert cssClass == prev + [cssClass[n - 1]];
    }
  }

  /** The container's own class comes first and no class is listed twice. */
  lemma {:induction false} ContainerClassesShape(cssClass: seq<Value>)
    ensures |ContainerClasses(cssClass)| > 0 && ContainerClasses(cssClass)[0] == ContainerClass
    ensures NoDuplicates(ContainerClasses(cssClass))
  {
    if cssClass != [] {
      ContainerClassesShape(cssClass[..|cssClass| - 1]);
    }
  }

  /**
   * When the string entries are distinct (and do not repeat the container's
   * own class), the container lists them after its own class, in the order given.
   */
  lemma {:induction false} ContainerClassesInOrder(cssClass: seq<Value>)
    requires NoDuplicates([ContainerClass] + StringEntries(cssClass))
    ensures ContainerClasses(cssClass) == [ContainerClass] + StringEntries(cssClass)
  {
    if cssClass != [] {
      var n := |cssClass|;
      var prev := cssClass[..n - 1];
      var last := cssClass[n - 1];
      assert cssClass == prev + [last];
      StringEntriesAppend(prev, [last]);
      assert StringEntries([last]) == EntryStrings(last);
      var whole := [ContainerClass] + StringEntries(cssClass);
      var front := [ContainerClass] + StringEntries(prev);
      assert whole == front + EntryStrings(last);
      assert NoDuplicates(front) by {
        forall i, j | 0 <= i < j < |front| ensures front[i] != front[j] {
          assert front[i] == whole[i] && front[j] == whole[j];
        }
      }
      ContainerClassesInOrder(prev);
      match last {
        case Str(t) =>
          assert whole[|front|] == t;
          assert t !in front by {
            forall i | 0 <= i < |front| ensures front[i] != t {
              assert front[i] == whole[i];
            }
          }
        case _ =>
      }
    }
  }

  // ----- The footer's child list -----

  /** A footer button; `id` is its position in the instance's button list and makes each one distinct. */
  datatype Button = Button(id: nat, title: string, cssClass: string, hasCallback: bool)

  /** A child of the footer: markup set through `innerHTML`, or one of the buttons. */
  datatype FooterNode = Markup(html: string) | ButtonNode(button: Button)

  /** The children that assigning `innerHTML = html` leaves. */
  function MarkupNodes(html: string): seq<FooterNode> {
    if html == "" then [] else [Markup(html)]
  }

  function Nodes(bs: seq<Button>): seq<FooterNode> {
    seq(|bs|, i requires 0 <= i < |bs| => ButtonNode(bs[i]))
  }

  /** `s` without the node `n`. */
  function Remove(s: seq<FooterNode>, n: FooterNode): seq<FooterNode> {
    if s == [] then [] else (if s[0] == n then [] else [s[0]]) + Remove(s[1..], n)
  }

  /** `parent.append(n)`: a node that is already a child is moved to the end. */
  function Append(s: seq<FooterNode>, n: FooterNode): seq<FooterNode> {
    Remove(s, n) + [n]
  }

  /** `bs.forEach(btn => parent.append(btn))`. */
  function AppendAll(s: seq<FooterNode>, bs: seq<Button>): seq<FooterNode>
    decreases |bs|
  {
    if bs == [] then s else Append(AppendAll(s, bs[..|bs| - 1]), ButtonNode(bs[|bs| - 1]))
  }

  /** `s` without any of the buttons in `bs`. */
  function Without(s: seq<FooterNode>, bs: seq<Button>): seq<FooterNode> {
    if s == [] then []
    else (if s[0].ButtonNode? && s[0].button in bs then [] else [s[0]]) + Without(s[1..], bs)
  }

  /** The loop that appends every button of the list to the footer. */
  method AppendButtons(children: seq<FooterNode>, bs: seq<Button>) returns (r: seq<FooterNode>)
    ensures r == AppendAll(children, bs)
  {
    r := children;
    for i := 0 to |bs|
      invariant r == AppendAll(children, bs[..i])
    {
      assert bs[..i + 1][..i] == bs[..i];
      r := Append(r, ButtonNode(bs[i]));
    }
    assert bs[..|bs|] == bs;
  }

  lemma {:induction false} RemoveConcat(a: seq<FooterNode>, b: seq<FooterNode>, n: FooterNode)
    ensures Remove(a + b, n) == Remove(a, n) + Remove(b, n)
  {
    if a == [] {
      assert a + b == b;
    } else {
      var head := if a[0] == n then [] else [a[0]];
      assert (a + b)[0] == a[0];
      assert (a + b)[1..] == a[1..] + b;
      RemoveConcat(a[1..], b, n);
      calc {
        Remove(a + b, n);
        head + Remove(a[1..] + b, n);
        head + (Remove(a[1..], n) + Remove(b, n));
        (head + Remove(a[1..], n)) + Remove(b, n);
        Remove(a, n) + Remove(b, n);
      }
    }
  }

  lemma {:induction false} RemoveAbsent(s: seq<FooterNode>, n: FooterNode)
    requires n !in s
    ensures Remove(s, n) == s
  {
    if s != [] {
      RemoveAbsent(s[1..], n);
    }
  }

  lemma {:induction false} RemoveWithout(s: seq<FooterNode>, p: seq<Button>, b: Button)
    ensures Remove(Without(s, p), ButtonNode(b)) == Without(s, p + [b])
  {
    if s != [] {
      var head := if s[0].ButtonNode? && s[0].button in p then [] else [s[0]];
      RemoveConcat(head, Without(s[1..], p), ButtonNode(b));
      RemoveWithout(s[1..], p, b);
    }
  }

  /**
   * Appending distinct buttons one by one leaves the other children in place
   * and the buttons at the end, in list order.
   */
  lemma {:induction false} AppendAllDistinct(s: seq<FooterNode>, bs: seq<Button>)
    requires NoDuplicates(bs)
    ensures AppendAll(s, bs) == Without(s, bs) + Nodes(bs)
  {
    if bs == [] {
      WithoutNothing(s);
    } else {
      var n := |bs|;
      var p := bs[..n - 1];
      var b := bs[n - 1];
      assert p + [b] == bs;
      assert NoDuplicates(p);
      AppendAllDistinct(s, p);
      assert ButtonNode(b) !in Nodes(p) by {
        forall i | 0 <= i < |p| ensures Nodes(p)[i] != ButtonNode(b) {
          assert p[i] == bs[i];
        }
      }
      RemoveConcat(Without(s, p), Nodes(p), ButtonNode(b));
      RemoveAbsent(Nodes(p), ButtonNode(b));
      RemoveWithout(s, p, b);
      assert Nodes(p) + [ButtonNode(b)] == Nodes(bs);
      calc {
        AppendAll(s, bs);
        Remove(Without(s, p) + Nodes(p), ButtonNode(b)) + [ButtonNode(b)];
        Without(s, p + [b]) + Nodes(p) + [ButtonNode(b)];
        Without(s, bs) + Nodes(bs);
      }
    }
  }

  lemma {:induction false} WithoutNothing(s: seq<FooterNode>)
    ensures Without(s, []) == s
  {
    if s != [] {
      WithoutNothing(s[1..]);
    }
  }

  lemma {:induction false} WithoutConcat(a: seq<FooterNode>, b: seq<FooterNode>, bs: seq<Button>)
    ensures Without(a + b, bs) == Without(a, bs) + Without(b, bs)
  {
    if a == [] {
      assert a + b == b;
    } else {
      var head := if a[0].ButtonNode? && a[0].button in bs then [] else [a[0]];
      assert (a + b)[0] == a[0];
      assert (a + b)[1..] == a[1..] + b;
      WithoutConcat(a[1..], b, bs);
      calc {
        Without(a + b, bs);
        head + Without(a[1..] + b, bs);
        head + (Without(a[1..], bs) + Without(b, bs));
        (head + Without(a[1..], bs)) + Without(b, bs);
        Without(a, bs) + Without(b, bs);
      }
    }
  }

  lemma {:induction false} WithoutOwnNodes(p: seq<Button>, bs: seq<Button>)
    requires forall x :: x in p ==> x in bs
    ensures Without(Nodes(p), bs) == []
  {
    if p != [] {
      assert Nodes(p) == [ButtonNode(p[0])] + Nodes(p[1..]);
      WithoutOwnNodes(p[1..], bs);
    }
  }

  /**
   * Re-appending the whole button list to a footer that holds its markup and
   * any of those buttons yields the markup followed by every button, in list order.
   */
  lemma FooterRerender(html: string, p: seq<Button>, bs: seq<Button>)
    requires NoDuplicates(bs)
    requires forall x :: x in p ==> x in bs
    ensures AppendAll(MarkupNodes(html) + Nodes(p), bs) == MarkupNodes(html) + Nodes(bs)
  {
    AppendAllDistinct(MarkupNodes(html) + Nodes(p), bs);
    WithoutConcat(MarkupNodes(html), Nodes(p), bs);
    WithoutOwnNodes(p, bs);
    assert Without(MarkupNodes(html), bs) == MarkupNodes(html);
  }
}
