/**
 * The shared array of open instances (`Modal.elements`) as a sequence:
 * `open` pushes, `close` pops the last entry without looking at it, and the
 * escape handler reads the last entry.
 */
module OpenStack {
  import opened Options

  /** `Array.prototype.pop`, result discarded: drop the last entry; an empty array stays empty. */
  function Pop<T>(s: seq<T>): (r: seq<T>)
    ensures s == [] ==> r == []
    ensures s != [] ==> r + [s[|s| - 1]] == s
  {
    if s == [] then [] else s[..|s| - 1]
  }

  /** `elements[elements.length - 1]`: the last entry, or undefined on an empty array. */
  function Top<T>(s: seq<T>): (r: Option<T>)
    ensures r.Some? <==> s != []
    ensures r.Some? ==> r.value == s[|s| - 1]
  {
    if s == [] then None else Some(s[|s| - 1])
  }

  /** One call that changes the array: an `open` of some instance, or a `close` of any. */
  datatype Call<T> = OpenCall(who: T) | CloseCall

  function Step<T>(s: seq<T>, c: Call<T>): seq<T> {
    match c
    case OpenCall(x) => s + [x]
    case CloseCall => Pop(s)
  }

  /** The array after a sequence of calls. */
  function Replay<T>(s: seq<T>, calls: seq<Call<T>>): seq<T>
    decreases |calls|
  {
    if calls == [] then s else Replay(Step(s, calls[0]), calls[1..])
  }

  function Opens<T>(calls: seq<Call<T>>): nat {
    if calls == [] then 0 else (if calls[0].OpenCall? then 1 else 0) + Opens(calls[1..])
  }

  function Closes<T>(calls: seq<Call<T>>): nat {
    if calls == [] then 0 else (if calls[0].CloseCall? then 1 else 0) + Closes(calls[1..])
  }

  /** Starting from `depth` entries, no `close` in `calls` meets an empty array. */
  predicate NeverUnderflows<T>(depth: nat, calls: seq<Call<T>>)
    decreases |calls|
  {
    calls == [] ||
    match calls[0]
    case OpenCall(_) => NeverUnderflows(depth + 1, calls[1..])
    case CloseCall => depth > 0 && NeverUnderflows(depth - 1, calls[1..])
  }

  /** Each open adds exactly one entry and each close removes at most one. */
  lemma {:induction false} ReplayLengthBound<T>(s: seq<T>, calls: seq<Call<T>>)
    ensures |Replay(s, calls)| >= |s| + Opens(calls) - Closes(calls)
    decreases |calls|
  {
    if calls != [] {
      ReplayLengthBound(Step(s, calls[0]), calls[1..]);
    }
  }

  /** While no close meets an empty array, the length is opens minus closes. */
  lemma {:induction false} ReplayLength<T>(s: seq<T>, calls: seq<Call<T>>)
    requires NeverUnderflows(|s|, calls)
    ensures |Replay(s, calls)| == |s| + Opens(calls) - Closes(calls)
    decreases |calls|
  {
    if calls != [] {
      ReplayLength(Step(s, calls[0]), calls[1..]);
    }
  }

  /**
   * Last in, first out: calls that never reach below the entries `base`
   * leave those entries untouched beneath whatever they do above them.
   */
  lemma {:induction false} ReplayAbove<T>(base: seq<T>, s: seq<T>, calls: seq<Call<T>>)
    requires NeverUnderflows(|s|, calls)
    ensures Replay(base + s, calls) == base + Replay(s, calls)
    decreases |calls|
  {
    if calls != [] {
      match calls[0] {
        case OpenCall(x) =>
          assert (base + s) + [x] == base + (s + [x]);
        case CloseCall =>
          assert (base + s)[..|base + s| - 1] == base + s[..|s| - 1];
      }
      ReplayAbove(base, Step(s, calls[0]), calls[1..]);
    }
  }

  /** Calls that open and close as often as each other, never closing too many, restore the array. */
  lemma BalancedRestores<T>(s: seq<T>, calls: seq<Call<T>>)
    requires NeverUnderflows(0, calls) && Opens(calls) == Closes(calls)
    ensures Replay(s, calls) == s
  {
    ReplayAbove(s, [], calls);
    ReplayLength([], calls);
    assert s + [] == s;
  }
}
