/** Helpers that several modules share. */
module Collections {

  function Max(a: int, b: int): int { if a < b then b else a }

  lemma ConcatIsAssociative<T>(a: seq<T>, b: seq<T>, c: seq<T>)
    ensures a + (b + c) == (a + b) + c
  {
  }

  /** The list has each of the elements once, in some order. */
  ghost predicate Lists<T(!new)>(list: seq<T>, elements: set<T>) {
    && (forall x :: x in elements <==> x in list)
    && (forall i, j | 0 <= i < j < |list| :: list[i] != list[j])
  }

  lemma {:induction false} ListSize<T(!new)>(list: seq<T>, elements: set<T>)
    requires Lists(list, elements)
    ensures |list| == |elements|
  {
    if list == [] {
      assert elements == {};
    } else {
      var last := list[|list| - 1];
      ListSize(list[..|list| - 1], elements - {last});
    }
  }

  /** Go visits the elements of a map in an arbitrary order. */
  method InSomeOrder<T(==,!new)>(elements: set<T>) returns (list: seq<T>)
    ensures Lists(list, elements)
  {
    list := [];
    var todo := elements;
    while todo != {}
      invariant todo <= elements && Lists(list, elements - todo)
    {
      var x :| x in todo;
      list := list + [x];
      todo := todo - {x};
    }
    assert elements - todo == elements;
  }

  /** A set can be listed. */
  ghost function SomeList<T(!new)>(elements: set<T>): (list: seq<T>)
    ensures Lists(list, elements)
  {
    if elements == {} then []
    else
      var x :| x in elements;
      var list := SomeList(elements - {x});
      assert elements == elements - {x} + {x};
      list + [x]
  }
}
