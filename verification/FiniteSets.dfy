/** Sizes of finite sets, and going through a set in no particular order. */
module FiniteSets {

  /** A subset is no larger, and as large only when it is the whole set. */
  lemma Subset<T>(a: set<T>, b: set<T>)
    requires a <= b
    ensures |a| <= |b| && (|a| == |b| <==> a == b)
  {
    assert b == a + (b - a);
    assert |b| == |a| + |b - a|;
    if a != b {
      var x :| x in b - a;
    }
  }

  lemma UnionSize<T>(a: set<T>, b: set<T>)
    ensures |a + b| <= |a| + |b|
  {
    assert a + b == a + (b - a);
    Subset(b - a, b);
  }

  ghost function Image<A(!new), B(!new)>(s: set<A>, f: A -> B): set<B> {
    set x | x in s :: f(x)
  }

  lemma {:induction false} ImageSize<A(!new), B(!new)>(s: set<A>, f: A -> B)
    ensures |Image(s, f)| <= |s|
  {
    if s != {} {
      var x :| x in s;
      ImageSize(s - {x}, f);
      assert Image(s, f) == Image(s - {x}, f) + {f(x)};
      UnionSize(Image(s - {x}, f), {f(x)});
    }
  }

  /** The elements of a sequence. */
  function Elements<T>(s: seq<T>): set<T> {
    set x | x in s
  }

  /** Of `all`, some are done and the rest is pending. */
  ghost predicate Splits<T>(all: set<T>, done: set<T>, pending: set<T>) {
    pending <= all && done == all - pending
  }

  lemma Start<T>(all: set<T>)
    ensures Splits(all, {}, all)
  {
  }

  lemma Step<T>(all: set<T>, done: set<T>, pending: set<T>, x: T)
    requires Splits(all, done, pending) && x in pending
    ensures x in all && x !in done && Splits(all, done + {x}, pending - {x})
  {
  }

  lemma End<T>(all: set<T>, done: set<T>)
    requires Splits(all, done, {})
    ensures done == all
  {
  }
}
