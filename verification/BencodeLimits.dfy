/** What the decoder's limits say of a value. */
module BencodeLimits {
  import opened Basics
  import opened Digits
  import opened BencodeSpec

  /** `w` is an element of `v`, or one of its keys. */
  ghost predicate Child(v: Value, w: Value) {
    match v
    case List(items) => w in items
    case Dict(m) => exists k :: k in m && (w == Bytes(k) || w == m[k])
    case _ => false
  }

  /** `w` is found `n` containers deep in `v`. */
  ghost predicate Nested(v: Value, n: nat, w: Value)
    decreases n
  {
    if n == 0 then v == w else exists u :: Child(v, u) && Nested(u, n - 1, w)
  }

  ghost predicate Short(v: Value) {
    match v
    case Int(i) => |IntText(i)| <= 1024
    case Bytes(b) => |Decimal(|b|)| <= 20
    case _ => true
  }

  ghost predicate ShortThroughout(v: Value, depth: nat, maxDepth: nat) {
    forall n: nat, w :: Nested(v, n, w) ==> depth + n <= maxDepth && Short(w)
  }

  lemma ChildNested(v: Value, u: Value, n: nat, w: Value)
    requires Child(v, u) && Nested(u, n, w)
    ensures Nested(v, n + 1, w)
  {
  }

  lemma ShortChildren(v: Value, depth: nat, maxDepth: nat)
    requires depth <= maxDepth && Short(v)
    requires forall u :: Child(v, u) ==> ShortThroughout(u, depth + 1, maxDepth)
    ensures ShortThroughout(v, depth, maxDepth)
  {
    forall n: nat, w | Nested(v, n, w)
      ensures depth + n <= maxDepth && Short(w)
    {
      if n > 0 {
        var u :| Child(v, u) && Nested(u, n - 1, w);
      }
    }
  }

  lemma ChildrenShort(v: Value, depth: nat, maxDepth: nat, u: Value)
    requires ShortThroughout(v, depth, maxDepth)
    ensures depth <= maxDepth && Short(v)
    ensures Child(v, u) ==> ShortThroughout(u, depth + 1, maxDepth)
  {
    assert Nested(v, 0, v);
    if Child(v, u) {
      forall n: nat, w | Nested(u, n, w)
        ensures depth + 1 + n <= maxDepth && Short(w)
      {
        ChildNested(v, u, n, w);
      }
    }
  }

  /** A value is within the limits exactly when nothing in it, keys included, is nested deeper than the limit, no
      number in it has more than 1024 characters and no byte string a length of more than 20 digits. */
  lemma WithinMeans(v: Value, depth: nat, maxDepth: nat)
    ensures Within(v, depth, maxDepth) <==> ShortThroughout(v, depth, maxDepth)
  {
    if ShortThroughout(v, depth, maxDepth) {
      ShortIsWithin(v, depth, maxDepth);
    }
    if Within(v, depth, maxDepth) {
      WithinIsShort(v, depth, maxDepth);
    }
  }

  lemma {:induction false} ShortIsWithin(v: Value, depth: nat, maxDepth: nat)
    requires ShortThroughout(v, depth, maxDepth)
    ensures Within(v, depth, maxDepth)
    decreases v
  {
    ChildrenShort(v, depth, maxDepth, v);
    if v.List? {
      forall x | x in v.items
        ensures Within(x, depth + 1, maxDepth)
      {
        ChildrenShort(v, depth, maxDepth, x);
        ShortIsWithin(x, depth + 1, maxDepth);
      }
    } else if v.Dict? {
      forall k | k in v.entries
        ensures |Decimal(|k|)| <= MAX_LENGTH_DIGITS && depth + 1 <= maxDepth
        ensures Within(v.entries[k], depth + 1, maxDepth)
      {
        ChildrenShort(v, depth, maxDepth, v.entries[k]);
        ChildrenShort(v, depth, maxDepth, Bytes(k));
        ChildrenShort(Bytes(k), depth + 1, maxDepth, v);
        ShortIsWithin(v.entries[k], depth + 1, maxDepth);
      }
    }
  }

  lemma NothingInBytes(k: seq<byte>, depth: nat, maxDepth: nat)
    requires depth <= maxDepth && |Decimal(|k|)| <= 20
    ensures ShortThroughout(Bytes(k), depth, maxDepth)
  {
    ShortChildren(Bytes(k), depth, maxDepth);
  }

  lemma {:induction false} WithinIsShort(v: Value, depth: nat, maxDepth: nat)
    requires Within(v, depth, maxDepth)
    ensures ShortThroughout(v, depth, maxDepth)
    decreases v
  {
    forall u | Child(v, u)
      ensures ShortThroughout(u, depth + 1, maxDepth)
    {
      if v.List? {
        WithinIsShort(u, depth + 1, maxDepth);
      } else {
        var k :| k in v.entries && (u == Bytes(k) || u == v.entries[k]);
        if u == v.entries[k] {
          WithinIsShort(v.entries[k], depth + 1, maxDepth);
        } else {
          NothingInBytes(k, depth + 1, maxDepth);
        }
      }
    }
    ShortChildren(v, depth, maxDepth);
  }
}
