/**
 * The singly linked list of the week-3 exercise: a head pointer to a chain
 * of boxed nodes and a cached `size`.  Each node is an object of its own;
 * the list and every node carry a ghost `Contents` (the values from there to
 * the end, head first) and a ghost `Repr` (the objects that make it up).
 */
module Lists {
  import opened Wrappers

  class Node<T> {
    var value: T
    var next: Node?<T>
    ghost var Contents: seq<T>
    ghost var Repr: set<object>

    /** The chain from here is acyclic and holds `Contents`, one value per node. */
    ghost predicate Valid()
      reads this, Repr
    {
      this in Repr &&
      (next == null ==> Contents == [value]) &&
      (next != null ==>
        next in Repr && next.Repr <= Repr && this !in next.Repr &&
        Contents == [value] + next.Contents &&
        next.Valid())
    }

    /** `Node::new(value, next)`. */
    constructor (value: T, next: Node?<T>)
      requires next != null ==> next.Valid()
      ensures Valid() && this.value == value && this.next == next
      ensures Contents == [value] + (if next == null then [] else next.Contents)
      ensures Repr == {this} + (if next == null then {} else next.Repr)
    {
      this.value := value;
      this.next := next;
      if next == null {
        Contents := [value];
        Repr := {this};
      } else {
        Contents := [value] + next.Contents;
        Repr := {this} + next.Repr;
      }
    }
  }

  /** Stepping from a valid node to the next one keeps validity and drops the first value. */
  lemma NextNode<T>(n: Node<T>)
    requires n.Valid()
    ensures n.Contents != [] && n.Contents[0] == n.value
    ensures n.next == null ==> n.Contents[1..] == []
    ensures n.next != null ==> n.next.Valid() && n.next.Repr <= n.Repr && n.next.Contents == n.Contents[1..]
  {
  }

  /** `s` in reverse order. */
  function Reversed<T>(s: seq<T>): (r: seq<T>)
    ensures |r| == |s|
  {
    if s == [] then [] else Reversed(s[1..]) + [s[0]]
  }

  lemma {:induction false} ReversedSnoc<T>(s: seq<T>, x: T)
    ensures Reversed(s + [x]) == [x] + Reversed(s)
    decreases |s|
  {
    if s == [] {
      assert [x][1..] == [];
    } else {
      assert (s + [x])[1..] == s[1..] + [x];
      ReversedSnoc(s[1..], x);
    }
  }

  /** Reversing twice gives the original order back. */
  lemma {:induction false} ReversedTwice<T>(s: seq<T>)
    ensures Reversed(Reversed(s)) == s
    decreases |s|
  {
    if s != [] {
      ReversedSnoc(Reversed(s[1..]), s[0]);
      ReversedTwice(s[1..]);
    }
  }

  /** What the `Display` impl writes: each value preceded by one space. */
  function Rendered<T>(s: seq<T>, show: T -> string): string {
    if s == [] then "" else " " + show(s[0]) + Rendered(s[1..], show)
  }

  /** Rendering distributes over concatenation. */
  lemma {:induction false} RenderedAppend<T>(a: seq<T>, b: seq<T>, show: T -> string)
    ensures Rendered(a + b, show) == Rendered(a, show) + Rendered(b, show)
    decreases |a|
  {
    if a == [] {
      assert a + b == b;
    } else {
      assert (a + b)[1..] == a[1..] + b;
      RenderedAppend(a[1..], b, show);
    }
  }

  /** The rendering holds one space per element and the text of every element. */
  lemma {:induction false} RenderedLength<T>(s: seq<T>, show: T -> string)
    ensures |Rendered(s, show)| == |s| + TextLength(s, show)
    decreases |s|
  {
    if s != [] {
      RenderedLength(s[1..], show);
    }
  }

  /** The total length of the elements' texts. */
  function TextLength<T>(s: seq<T>, show: T -> string): nat {
    if s == [] then 0 else |show(s[0])| + TextLength(s[1..], show)
  }

  class LinkedList<T> {
    var head: Node?<T>
    var size: nat
    ghost var Contents: seq<T>
    ghost var Repr: set<object>

    /** The nodes from `head` hold `Contents`, and `size` counts them. */
    ghost predicate Valid()
      reads this, Repr
    {
      this in Repr &&
      (head == null ==> Contents == []) &&
      (head != null ==>
        head in Repr && head.Repr <= Repr && this !in head.Repr &&
        head.Valid() && Contents == head.Contents) &&
      size == |Contents|
    }

    /** `LinkedList::new`: no nodes, size 0. */
    constructor ()
      ensures Valid() && fresh(Repr)
      ensures Contents == [] && size == 0
    {
      head := null;
      size := 0;
      Contents := [];
      Repr := {this};
    }

    /** `get_size`: the cached count, which is the number of elements. */
    method GetSize() returns (n: nat)
      requires Valid()
      ensures n == |Contents|
    {
      n := size;
    }

    /** `is_empty`: true exactly when there are no elements. */
    method IsEmpty() returns (b: bool)
      requires Valid()
      ensures b <==> Contents == []
    {
      var n := GetSize();
      b := n == 0;
    }

    /** `push_front`: `value` becomes the first element. */
    method PushFront(value: T)
      requires Valid()
      modifies this
      ensures Valid() && fresh(Repr - old(Repr))
      ensures Contents == [value] + old(Contents) && size == old(size) + 1
    {
      head := new Node(value, head);
      size := size + 1;
      Contents := [value] + Contents;
      Repr := Repr + head.Repr;
    }

    /**
     * `pop_front`: removes and returns the first element; on an empty list
     * it returns None before `size` is touched.
     */
    method PopFront() returns (r: Option<T>)
      requires Valid()
      modifies this
      ensures Valid() && Repr <= old(Repr)
      ensures old(Contents) == [] ==> r == None && Contents == [] && size == old(size)
      ensures old(Contents) != [] ==>
        r == Some(old(Contents)[0]) && Contents == old(Contents)[1..] && size == old(size) - 1
    {
      if head == null {
        return None;
      }
      var node := head;
      head := node.next;
      size := size - 1;
      Contents := Contents[1..];
      r := Some(node.value);
    }

    /** `Display::fmt`: walks the nodes from the head, appending " " and each value. */
    method Fmt(show: T -> string) returns (result: string)
      requires Valid()
      ensures result == Rendered(Contents, show)
    {
      result := "";
      var current := head;
      ghost var i := 0;
      while current != null
        invariant 0 <= i <= |Contents|
        invariant current == null ==> i == |Contents|
        invariant current != null ==>
          current in Repr && current.Repr <= Repr && current.Valid() && current.Contents == Contents[i..]
        invariant result == Rendered(Contents[..i], show)
        decreases |Contents| - i
      {
        NextNode(current);
        assert Contents[..i + 1] == Contents[..i] + [current.value];
        assert Contents[i..][1..] == Contents[i + 1..];
        RenderedAppend(Contents[..i], [current.value], show);
        result := result + " " + show(current.value);
        current := current.next;
        i := i + 1;
      }
      assert Contents[..i] == Contents;
    }

    /** The first loop of `Clone::clone`: each value is inserted at position 0. */
    method CollectReversed() returns (elements: seq<T>)
      requires Valid()
      ensures elements == Reversed(Contents)
    {
      elements := [];
      var current := head;
      ghost var i := 0;
      while current != null
        invariant 0 <= i <= |Contents|
        invariant current == null ==> i == |Contents|
        invariant current != null ==>
          current in Repr && current.Repr <= Repr && current.Valid() && current.Contents == Contents[i..]
        invariant elements == Reversed(Contents[..i])
        decreases |Contents| - i
      {
        NextNode(current);
        assert Contents[..i + 1] == Contents[..i] + [current.value];
        assert Contents[i..][1..] == Contents[i + 1..];
        ReversedSnoc(Contents[..i], current.value);
        elements := [current.value] + elements;
        current := current.next;
        i := i + 1;
      }
      assert Contents[..i] == Contents;
    }

    /**
     * `Clone::clone`: collects the values in reverse, then pushes them one
     * by one onto a new list, which restores the order.
     */
    method Clone() returns (copy: LinkedList<T>)
      requires Valid()
      ensures copy.Valid() && fresh(copy.Repr)
      ensures copy.Contents == Contents && copy.size == size
    {
      var elements := CollectReversed();
      copy := new LinkedList();
      for j := 0 to |elements|
        invariant copy.Valid() && fresh(copy.Repr)
        invariant copy.Contents == Reversed(elements[..j])
      {
        assert elements[..j + 1] == elements[..j] + [elements[j]];
        ReversedSnoc(elements[..j], elements[j]);
        copy.PushFront(elements[j]);
      }
      assert elements[..|elements|] == elements;
      ReversedTwice(Contents);
    }
  }

  /** `push_front(v)` then `pop_front()` gives back `v` and the original list. */
  method PushThenPop<T>(list: LinkedList<T>, v: T) returns (r: Option<T>)
    requires list.Valid()
    modifies list
    ensures list.Valid()
    ensures r == Some(v) && list.Contents == old(list.Contents) && list.size == old(list.size)
  {
    list.PushFront(v);
    r := list.PopFront();
  }
}
