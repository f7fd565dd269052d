/**
 * A paginated listing as the store serves it. The continuation token is
 * the index of the next page; a listing may fail at one call, after which
 * the caller stops paging.
 */
module Paging {
  import opened Wrappers

  /** The pages a listing would return, and the index of the call that fails, if any. */
  datatype Pager<T> = Pager(pages: seq<seq<T>>, failAt: Option<nat>)

  /** The pages actually answered: the first call always answers, with an empty page if nothing else. */
  function Pages<T>(p: Pager<T>): (ps: seq<seq<T>>)
    ensures |ps| >= 1
    ensures p.pages != [] ==> ps == p.pages
  {
    if p.pages == [] then [[]] else p.pages
  }

  /** The number of pages received before paging stops, at a failure or after the last page. */
  function Served<T>(p: Pager<T>): (n: nat)
    ensures n <= |Pages(p)|
  {
    match p.failAt
    case Some(f) => if f < |Pages(p)| then f else |Pages(p)|
    case None => |Pages(p)|
  }

  /** The answer to the call made with `token`: a page and the next token, or None when the call fails. */
  function Response<T>(p: Pager<T>, token: nat): Option<(seq<T>, Option<nat>)>
    requires token < |Pages(p)|
  {
    if p.failAt == Some(token) then None
    else Some((Pages(p)[token], if token + 1 < |Pages(p)| then Some(token + 1) else None))
  }

  function Flatten<T>(ss: seq<seq<T>>): seq<T>
  {
    if ss == [] then [] else Flatten(ss[..|ss| - 1]) + ss[|ss| - 1]
  }

  /** Every item received, in the order the pages arrived. */
  function Delivered<T>(p: Pager<T>): seq<T>
  {
    Flatten(Pages(p)[..Served(p)])
  }

  /** The items of the first k pages are a prefix of all items. */
  lemma {:induction false} FlattenPrefix<T>(ss: seq<seq<T>>, k: nat)
    requires k <= |ss|
    ensures Flatten(ss[..k]) <= Flatten(ss)
  {
    if k < |ss| {
      var init := ss[..|ss| - 1];
      FlattenPrefix(init, k);
      assert init[..k] == ss[..k];
      assert ss[..|ss|] == ss;
    } else {
      assert ss[..k] == ss;
    }
  }

  /** An item is in the flattened pages exactly when some page holds it. */
  lemma {:induction false} FlattenMember<T>(ss: seq<seq<T>>, x: T)
    ensures x in Flatten(ss) <==> exists i :: 0 <= i < |ss| && x in ss[i]
  {
    if ss != [] {
      var init := ss[..|ss| - 1];
      FlattenMember(init, x);
      if x in Flatten(ss) && x !in ss[|ss| - 1] {
        var i :| 0 <= i < |init| && x in init[i];
        assert x in ss[i];
      }
      if i :| 0 <= i < |ss| && x in ss[i] {
        if i < |init| {
          assert x in init[i];
        }
      }
    }
  }

  /** What a listing delivers is a prefix of everything it holds, and all of it when no call fails. */
  lemma DeliveredPrefix<T>(p: Pager<T>)
    ensures Delivered(p) <= Flatten(Pages(p))
    ensures p.failAt.None? ==> Delivered(p) == Flatten(Pages(p))
  {
    FlattenPrefix(Pages(p), Served(p));
    assert Pages(p)[..|Pages(p)|] == Pages(p);
  }

  /** A failure on the first call delivers nothing. */
  lemma FirstCallFails<T>(p: Pager<T>)
    requires p.failAt == Some(0)
    ensures Delivered(p) == []
  {
  }

  /** A failure at call f delivers the same as a listing that ended after f pages. */
  lemma {:induction false} FailureTruncates<T>(p: Pager<T>, f: nat)
    requires p.failAt == Some(f) && 1 <= f <= |p.pages|
    ensures Delivered(p) == Delivered(Pager(p.pages[..f], None))
    ensures Delivered(p) == Flatten(p.pages[..f])
  {
    var q := Pager(p.pages[..f], None);
    assert Pages(q)[..Served(q)] == p.pages[..f];
  }
}
