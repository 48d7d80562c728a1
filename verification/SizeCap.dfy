/**
 Trimming a status snapshot to its size bound, in place: the oldest events go first, then optional
 figures, then the oldest commands. The serialised size is any function of the snapshot.
 */
module SizeCap {
  import opened Prelude

  const LIMIT := 256 * 1024
  const NATIVE := "native."

  /** The trimmable parts, and the budget, limits and identity around them; `events` and `commands` are None unless they are lists, `figures` unless it is a dict. */
  datatype View<Item, Figure, Rest> = View(
    events: Option<seq<Item>>,
    figures: Option<map<string, Figure>>,
    commands: Option<seq<Item>>,
    truncated: bool,
    rest: Rest)

  // ---- The order of figures -----------------------------------------------------------

  /** Lexicographic order by code point, as Python compares strings. */
  predicate Leq(a: string, b: string) {
    a == "" || (b != "" && (a[0] < b[0] || (a[0] == b[0] && Leq(a[1..], b[1..]))))
  }

  lemma {:induction false} LeqTotal(a: string, b: string)
    ensures Leq(a, b) || Leq(b, a)
    ensures Leq(a, b) && Leq(b, a) ==> a == b
  {
    if a != "" && b != "" && a[0] == b[0] {
      LeqTotal(a[1..], b[1..]);
      assert a == [a[0]] + a[1..] && b == [b[0]] + b[1..];
    }
  }

  lemma {:induction false} LeqTransitive(a: string, b: string, c: string)
    requires Leq(a, b) && Leq(b, c)
    ensures Leq(a, c)
  {
    if a != "" && a[0] == b[0] == c[0] {
      LeqTransitive(a[1..], b[1..], c[1..]);
    }
  }

  predicate IsNative(key: string) {
    |NATIVE| <= |key| && key[..|NATIVE|] == NATIVE
  }

  /** Whether `a` is dropped no later than `b`: native keys first, each group by name. */
  predicate Before(a: string, b: string) {
    if IsNative(a) == IsNative(b) then Leq(a, b) else IsNative(a)
  }

  /** The key dropped first. */
  predicate IsFirst(keys: set<string>, key: string) {
    key in keys && forall k :: k in keys ==> Before(key, k)
  }

  lemma BeforeChains(a: string, b: string, c: string)
    requires Before(a, b) && Before(b, c)
    ensures Before(a, c)
  {
    if IsNative(a) == IsNative(b) == IsNative(c) {
      LeqTransitive(a, b, c);
    }
  }

  lemma BeforeTotal(a: string, b: string)
    ensures Before(a, b) || Before(b, a)
    ensures Before(a, b) && Before(b, a) ==> a == b
    ensures Before(a, a)
  {
    LeqTotal(a, b);
    LeqTotal(a, a);
  }

  lemma {:induction false} FirstExists(keys: set<string>)
    requires keys != {}
    ensures exists k :: IsFirst(keys, k)
    decreases |keys|
  {
    var some :| some in keys;
    var rest := keys - {some};
    BeforeTotal(some, some);
    if rest == {} {
      assert keys <= rest + {some};
      assert IsFirst(keys, some);
    } else {
      FirstExists(rest);
      var first :| IsFirst(rest, first);
      BeforeTotal(first, some);
      if Before(first, some) {
        assert IsFirst(keys, first);
      } else {
        forall k | k in rest
          ensures Before(some, k)
        {
          BeforeChains(some, first, k);
        }
        assert IsFirst(keys, some);
      }
    }
  }

  lemma FirstIsUnique(keys: set<string>, a: string, b: string)
    requires IsFirst(keys, a) && IsFirst(keys, b)
    ensures a == b
  {
    BeforeTotal(a, b);
  }

  function First(keys: set<string>): (first: string)
    requires keys != {}
    ensures IsFirst(keys, first)
  {
    FirstExists(keys);
    assert forall a, b :: IsFirst(keys, a) && IsFirst(keys, b) ==> a == b by {
      forall a, b | IsFirst(keys, a) && IsFirst(keys, b)
        ensures a == b
      {
        FirstIsUnique(keys, a, b);
      }
    }
    var first :| first in keys && IsFirst(keys, first);
    first
  }

  function DropOrder(keys: set<string>): (order: seq<string>)
    ensures |order| == |keys|
    decreases |keys|
  {
    if keys == {} then [] else [First(keys)] + DropOrder(keys - {First(keys)})
  }

  /** The order lists every key once, native keys first, each group by name. */
  lemma {:induction false} DropOrderIsSorted(keys: set<string>)
    ensures var order := DropOrder(keys);
      && (forall k :: k in keys <==> k in order)
      && (forall i, j :: 0 <= i < j < |order| ==> order[i] != order[j] && Before(order[i], order[j]))
    decreases |keys|
  {
    if keys != {} {
      DropOrderIsSorted(keys - {First(keys)});
    }
  }

  /** `a` is no later than `b` where they first differ: it ends there, or has the smaller character. */
  ghost predicate NoLater(a: string, b: string) {
    exists n :: DifferAt(a, b, n)
  }

  ghost predicate DifferAt(a: string, b: string, n: nat) {
    n <= |a| && n <= |b| && a[..n] == b[..n] && (n == |a| || (n < |b| && a[n] < b[n]))
  }

  lemma {:induction false} LeqIsNoLater(a: string, b: string)
    ensures Leq(a, b) ==> NoLater(a, b)
  {
    if Leq(a, b) {
      if a == "" || a[0] < b[0] {
        assert DifferAt(a, b, 0);
      } else {
        LeqIsNoLater(a[1..], b[1..]);
        var n: nat :| DifferAt(a[1..], b[1..], n);
        assert a[..n + 1] == [a[0]] + a[1..][..n] && b[..n + 1] == [b[0]] + b[1..][..n];
        assert DifferAt(a, b, n + 1);
      }
    }
  }

  /** Every name that starts with "native." comes before every other, and names of one kind come by character. */
  lemma NativeNamesFirst(keys: set<string>, i: nat, j: nat)
    requires i < j < |DropOrder(keys)|
    ensures var a, b := DropOrder(keys)[i], DropOrder(keys)[j];
      ("native." <= b ==> "native." <= a) && (("native." <= a) == ("native." <= b) ==> NoLater(a, b))
  {
    DropOrderIsSorted(keys);
    var a, b := DropOrder(keys)[i], DropOrder(keys)[j];
    assert Before(a, b);
    LeqIsNoLater(a, b);
  }

  // ---- Trimming -----------------------------------------------------------------------

  function Items<T>(o: Option<seq<T>>): seq<T> {
    if o.Some? then o.value else []
  }

  function Keys<Figure>(o: Option<map<string, Figure>>): set<string> {
    if o.Some? then o.value.Keys else {}
  }

  /** How many drops are left. */
  function Droppable<Item, Figure, Rest>(v: View<Item, Figure, Rest>): nat {
    |Items(v.events)| + |Keys(v.figures)| + |Items(v.commands)|
  }

  /** The next drop: the oldest event, else the first figure in order, else the oldest command. */
  function DropOne<Item, Figure, Rest>(v: View<Item, Figure, Rest>): (r: View<Item, Figure, Rest>)
    requires Droppable(v) > 0
    ensures Droppable(r) == Droppable(v) - 1
  {
    if Items(v.events) != [] then v.(events := Some(v.events.value[1..]))
    else if Keys(v.figures) != {} then
      var figures := v.figures.value - {First(v.figures.value.Keys)};
      assert figures.Keys == v.figures.value.Keys - {First(v.figures.value.Keys)};
      v.(figures := Some(figures))
    else v.(commands := Some(v.commands.value[1..]))
  }

  /** Drops one after the other for as long as the snapshot is over the limit and has something to drop. */
  function Trimmed<Item, Figure, Rest>(size: View<Item, Figure, Rest> -> nat, v: View<Item, Figure, Rest>): View<Item, Figure, Rest>
    decreases Droppable(v)
  {
    if size(v) <= LIMIT || Droppable(v) == 0 then v else Trimmed(size, DropOne(v))
  }

  function Capped<Item, Figure, Rest>(size: View<Item, Figure, Rest> -> nat, v: View<Item, Figure, Rest>): View<Item, Figure, Rest> {
    if size(v) <= LIMIT then v else Trimmed(size, v.(truncated := true))
  }

  function DropMany<Item, Figure, Rest>(v: View<Item, Figure, Rest>, n: nat): (r: View<Item, Figure, Rest>)
    requires n <= Droppable(v)
    ensures Droppable(r) == Droppable(v) - n
    decreases n
  {
    if n == 0 then v else DropMany(DropOne(v), n - 1)
  }

  /**
   The result is reached by the fewest drops after which the snapshot fits, and does not fit only
   when nothing is left to drop.
   */
  lemma {:induction false} TrimmedIsFirstFit<Item, Figure, Rest>(size: View<Item, Figure, Rest> -> nat, v: View<Item, Figure, Rest>) returns (n: nat)
    ensures n <= Droppable(v) && Trimmed(size, v) == DropMany(v, n)
    ensures forall k :: 0 <= k < n ==> size(DropMany(v, k)) > LIMIT
    ensures size(Trimmed(size, v)) > LIMIT ==> n == Droppable(v)
    decreases Droppable(v)
  {
    if size(v) <= LIMIT || Droppable(v) == 0 {
      n := 0;
    } else {
      var m := TrimmedIsFirstFit(size, DropOne(v));
      n := m + 1;
      forall k | 0 <= k < n
        ensures size(DropMany(v, k)) > LIMIT
      {
        assert k > 0 ==> DropMany(v, k) == DropMany(DropOne(v), k - 1);
      }
    }
  }

  predicate IsSuffix<T(==)>(a: seq<T>, b: seq<T>) {
    |a| <= |b| && a == b[|b| - |a|..]
  }

  /**
   What drops leave: suffixes of the events and commands, the figures without the first names in
   order, and nothing of a later group gone before the earlier group is empty.
   */
  ghost predicate InOrder<Item, Figure, Rest>(r: View<Item, Figure, Rest>, v: View<Item, Figure, Rest>) {
    && IsSuffix(Items(r.events), Items(v.events)) && IsSuffix(Items(r.commands), Items(v.commands))
    && IsSuffix(DropOrder(Keys(r.figures)), DropOrder(Keys(v.figures)))
    && (r.figures.Some? ==> v.figures.Some? && r.figures.value.Items <= v.figures.value.Items)
    && (Keys(r.figures) != Keys(v.figures) ==> Items(r.events) == [])
    && (Items(r.commands) != Items(v.commands) ==> Items(r.events) == [] && Keys(r.figures) == {})
    && r.truncated == v.truncated && r.rest == v.rest
  }

  lemma SuffixOfSuffix<T>(a: seq<T>, b: seq<T>)
    requires IsSuffix(a, b) && a != []
    ensures IsSuffix(a[1..], b)
  {
  }

  lemma FigureDropped<Item, Figure, Rest>(v: View<Item, Figure, Rest>)
    requires Items(v.events) == [] && Keys(v.figures) != {}
    ensures DropOne(v) == v.(figures := Some(v.figures.value - {First(v.figures.value.Keys)}))
    ensures DropOrder(DropOne(v).figures.value.Keys) == DropOrder(v.figures.value.Keys)[1..]
    ensures DropOne(v).figures.value.Items <= v.figures.value.Items
  {
    var keys := v.figures.value.Keys;
    var figures := v.figures.value - {First(keys)};
    assert figures.Keys == keys - {First(keys)};
    forall item | item in figures.Items
      ensures item in v.figures.value.Items
    {
      assert item.0 in v.figures.value && v.figures.value[item.0] == item.1;
    }
  }

  lemma OneMoreInOrder<Item, Figure, Rest>(v: View<Item, Figure, Rest>, r: View<Item, Figure, Rest>)
    requires InOrder(r, v) && Droppable(r) > 0
    ensures InOrder(DropOne(r), v)
  {
    if Items(r.events) != [] {
      SuffixOfSuffix(r.events.value, Items(v.events));
    } else if Keys(r.figures) != {} {
      FigureDropped(r);
      SuffixOfSuffix(DropOrder(r.figures.value.Keys), DropOrder(Keys(v.figures)));
    } else {
      SuffixOfSuffix(r.commands.value, Items(v.commands));
    }
  }

  /** Trimming keeps the order of the groups and of the names, whatever the sizes are. */
  lemma {:induction false} TrimmedInOrder<Item, Figure, Rest>(size: View<Item, Figure, Rest> -> nat, v: View<Item, Figure, Rest>, r: View<Item, Figure, Rest>)
    requires InOrder(r, v)
    ensures InOrder(Trimmed(size, r), v)
    decreases Droppable(r)
  {
    if size(r) > LIMIT && Droppable(r) > 0 {
      OneMoreInOrder(v, r);
      TrimmedInOrder(size, v, DropOne(r));
    }
  }

  /** Capping: an unchanged snapshot within the bound, a marked and orderly trimmed one over it. */
  lemma CappedKeepsOrder<Item, Figure, Rest>(size: View<Item, Figure, Rest> -> nat, v: View<Item, Figure, Rest>)
    ensures var r := Capped(size, v);
      && InOrder(r.(truncated := v.truncated), v)
      && (size(v) <= LIMIT ==> r == v)
      && (size(v) > LIMIT ==> r.truncated)
      && (size(r) > LIMIT ==> Items(r.events) == [] && Keys(r.figures) == {} && Items(r.commands) == [])
  {
    if size(v) > LIMIT {
      var marked := v.(truncated := true);
      TrimmedInOrder(size, marked, marked);
      var n := TrimmedIsFirstFit(size, marked);
      var r := Trimmed(size, marked);
      assert size(r) > LIMIT ==> Droppable(r) == 0;
    }
  }

  class Snapshot<Item, Figure, Rest> {
    const size: View<Item, Figure, Rest> -> nat
    var events: Option<seq<Item>>
    var figures: Option<map<string, Figure>>
    var commands: Option<seq<Item>>
    var truncated: bool
    var rest: Rest

    constructor (size: View<Item, Figure, Rest> -> nat, view: View<Item, Figure, Rest>)
      ensures this.size == size && Contents() == view
    {
      this.size := size;
      events, figures, commands := view.events, view.figures, view.commands;
      truncated, rest := view.truncated, view.rest;
    }

    function Contents(): View<Item, Figure, Rest>
      reads this
    {
      View(events, figures, commands, truncated, rest)
    }

    method TrimEvents()
      modifies this`events
      ensures Trimmed(size, Contents()) == Trimmed(size, old(Contents()))
      ensures size(Contents()) > LIMIT ==> Items(events) == []
    {
      while Items(events) != [] && size(Contents()) > LIMIT
        invariant Trimmed(size, Contents()) == Trimmed(size, old(Contents()))
        decreases |Items(events)|
      {
        ghost var v := Contents();
        events := Some(events.value[1..]);
        assert Contents() == DropOne(v);
      }
    }

    /** The order is computed once; each drop takes the key that would come first anyway. */
    method TrimFigures()
      requires size(Contents()) > LIMIT ==> Items(events) == []
      modifies this`figures
      ensures Trimmed(size, Contents()) == Trimmed(size, old(Contents()))
      ensures size(Contents()) > LIMIT ==> Items(events) == [] && Keys(figures) == {}
    {
      if figures.None? {
        return;
      }
      var order := DropOrder(figures.value.Keys);
      for i := 0 to |order|
        invariant figures.Some? && DropOrder(figures.value.Keys) == order[i..]
        invariant Trimmed(size, Contents()) == Trimmed(size, old(Contents()))
        invariant size(Contents()) > LIMIT ==> Items(events) == []
      {
        if size(Contents()) <= LIMIT {
          break;
        }
        ghost var v := Contents();
        FigureDropped(v);
        figures := Some(figures.value - {order[i]});
        assert Contents() == DropOne(v);
      }
    }

    method TrimCommands()
      requires size(Contents()) > LIMIT ==> Items(events) == [] && Keys(figures) == {}
      modifies this`commands
      ensures Contents() == Trimmed(size, old(Contents()))
    {
      while Items(commands) != [] && size(Contents()) > LIMIT
        invariant Trimmed(size, Contents()) == Trimmed(size, old(Contents()))
        invariant size(Contents()) > LIMIT ==> Items(events) == [] && Keys(figures) == {}
        decreases |Items(commands)|
      {
        ghost var v := Contents();
        commands := Some(commands.value[1..]);
        assert Contents() == DropOne(v);
      }
    }

    method ApplyContractSizeCap()
      modifies this
      ensures Contents() == Capped(size, old(Contents()))
      ensures size(old(Contents())) <= 262144 ==> Contents() == old(Contents())
      ensures size(old(Contents())) > 262144 ==> Contents() == Trimmed(size, old(Contents()).(truncated := true))
    {
      if size(Contents()) <= LIMIT {
        return;
      }
      truncated := true;
      assert Contents() == old(Contents()).(truncated := true);
      TrimEvents();
      TrimFigures();
      TrimCommands();
    }
  }
}
