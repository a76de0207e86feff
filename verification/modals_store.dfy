/**
 * The administration's modal registry: an in-memory list of open modal
 * entries with two mutations, `openModal` (append a normalised entry) and
 * `closeModal` (drop every entry with a given location id).
 */
module ModalsStore {
  import opened Wrappers
  import opened ModalEntry

  /** The entries of `s` whose location id differs from `id`, in their order in `s`. */
  function Without(s: seq<ModalItemEntry>, id: string): (r: seq<ModalItemEntry>)
    ensures |r| <= |s|
    ensures forall e :: e in r ==> e in s && e.locationId != id
  {
    if s == [] then []
    else if s[0].locationId == id then Without(s[1..], id)
    else [s[0]] + Without(s[1..], id)
  }

  /** How many entries of `s` have location id `id`. */
  function CountId(s: seq<ModalItemEntry>, id: string): nat
  {
    if s == [] then 0
    else (if s[0].locationId == id then 1 else 0) + CountId(s[1..], id)
  }

  /** `r` is `s` with some entries deleted and the rest in their original order. */
  predicate IsSubsequence(r: seq<ModalItemEntry>, s: seq<ModalItemEntry>)
  {
    if r == [] then true
    else if s == [] then false
    else if r[0] == s[0] then IsSubsequence(r[1..], s[1..])
    else IsSubsequence(r, s[1..])
  }

  // ----- properties of the filter that closeModal applies -----

  /** Filtering a concatenation filters each part. */
  lemma {:induction false} WithoutAppend(a: seq<ModalItemEntry>, b: seq<ModalItemEntry>, id: string)
    ensures Without(a + b, id) == Without(a, id) + Without(b, id)
  {
    if a != [] {
      assert (a + b)[0] == a[0] && (a + b)[1..] == a[1..] + b;
      WithoutAppend(a[1..], b, id);
      if a[0].locationId != id {
        assert [a[0]] + (Without(a[1..], id) + Without(b, id))
            == ([a[0]] + Without(a[1..], id)) + Without(b, id);
      }
    } else {
      assert a + b == b;
    }
  }

  /** Filtering removes exactly the entries with that id, and keeps the count of every other entry. */
  lemma {:induction false} WithoutMultiset(s: seq<ModalItemEntry>, id: string, e: ModalItemEntry)
    ensures multiset(Without(s, id))[e] == if e.locationId == id then 0 else multiset(s)[e]
  {
    if s != [] {
      WithoutMultiset(s[1..], id, e);
      assert s == [s[0]] + s[1..];
    }
  }

  /** The kept entries appear in the order they had. */
  lemma {:induction false} WithoutIsSubsequence(s: seq<ModalItemEntry>, id: string)
    ensures IsSubsequence(Without(s, id), s)
  {
    if s != [] {
      WithoutIsSubsequence(s[1..], id);
      if s[0].locationId == id {
        SubsequenceDropHead(Without(s[1..], id), s);
      } else {
        assert ([s[0]] + Without(s[1..], id))[1..] == Without(s[1..], id);
      }
    }
  }

  lemma {:induction false} SubsequenceDropHead(r: seq<ModalItemEntry>, s: seq<ModalItemEntry>)
    requires s != [] && IsSubsequence(r, s[1..])
    ensures IsSubsequence(r, s)
    decreases |r| + |s|
  {
    if r != [] && r[0] == s[0] {
      SubsequenceTail(r, s[1..]);
    }
  }

  lemma {:induction false} SubsequenceTail(r: seq<ModalItemEntry>, s: seq<ModalItemEntry>)
    requires r != [] && IsSubsequence(r, s)
    ensures IsSubsequence(r[1..], s)
    decreases |r| + |s|
  {
    if s != [] && r[0] != s[0] {
      SubsequenceTail(r, s[1..]);
      SubsequenceDropHead(r[1..], s);
    } else if s != [] {
      SubsequenceDropHead(r[1..], s);
    }
  }

  /** Filtering shortens the list by exactly the number of entries with that id. */
  lemma {:induction false} WithoutLength(s: seq<ModalItemEntry>, id: string)
    ensures |Without(s, id)| == |s| - CountId(s, id)
  {
    if s != [] {
      WithoutLength(s[1..], id);
    }
  }

  /** The list is left unchanged if and only if no entry has that id. */
  lemma {:induction false} WithoutUnchanged(s: seq<ModalItemEntry>, id: string)
    ensures Without(s, id) == s <==> CountId(s, id) == 0
  {
    WithoutLength(s, id);
    if CountId(s, id) == 0 {
      NoneWithId(s, id);
    }
  }

  lemma {:induction false} NoneWithId(s: seq<ModalItemEntry>, id: string)
    requires CountId(s, id) == 0
    ensures Without(s, id) == s
  {
    if s != [] {
      NoneWithId(s[1..], id);
    }
  }

  /** After filtering no entry has that id. */
  lemma {:induction false} WithoutCountId(s: seq<ModalItemEntry>, id: string)
    ensures CountId(Without(s, id), id) == 0
  {
    if s != [] {
      WithoutCountId(s[1..], id);
      if s[0].locationId != id {
        assert ([s[0]] + Without(s[1..], id))[1..] == Without(s[1..], id);
      }
    }
  }

  /** Closing the same id twice is the same as closing it once. */
  lemma {:induction false} WithoutIdempotent(s: seq<ModalItemEntry>, id: string)
    ensures Without(Without(s, id), id) == Without(s, id)
  {
    WithoutCountId(s, id);
    NoneWithId(Without(s, id), id);
  }

  /** Appending an entry adds one to the count of its own id and leaves other ids' counts alone. */
  lemma {:induction false} CountIdAppend(s: seq<ModalItemEntry>, e: ModalItemEntry, id: string)
    ensures CountId(s + [e], id) == CountId(s, id) + (if e.locationId == id then 1 else 0)
  {
    if s != [] {
      assert (s + [e])[1..] == s[1..] + [e];
      CountIdAppend(s[1..], e, id);
    }
  }

  // ----- the registry -----

  /** The registry's state: the open modals, oldest first. */
  class ModalsState {
    var modals: seq<ModalItemEntry>

    /** The initial state holds no modals. */
    constructor ()
      ensures modals == []
    {
      modals := [];
    }

    /** Append the normalised entry for `payload`; earlier entries stay as they were. */
    method OpenModal(payload: ModalPayload)
      modifies this
      ensures modals == old(modals) + [Normalize(payload)]
      ensures |modals| == |old(modals)| + 1
      ensures CountId(modals, payload.locationId) == CountId(old(modals), payload.locationId) + 1
    {
      CountIdAppend(modals, Normalize(payload), payload.locationId);
      modals := modals + [Normalize(payload)];
    }

    /** Drop every entry whose location id is `locationId`, keeping the rest in order. */
    method CloseModal(locationId: string)
      modifies this
      ensures modals == Without(old(modals), locationId)
      ensures CountId(modals, locationId) == 0
      ensures IsSubsequence(modals, old(modals))
    {
      var all := modals;
      var kept: seq<ModalItemEntry> := [];
      var i := 0;
      while i < |all|
        invariant 0 <= i <= |all|
        invariant kept == Without(all[..i], locationId)
      {
        var modal := all[i];
        assert all[..i + 1] == all[..i] + [modal];
        WithoutAppend(all[..i], [modal], locationId);
        if modal.locationId != locationId {
          kept := kept + [modal];
        }
        i := i + 1;
      }
      assert all[..i] == all;
      WithoutCountId(all, locationId);
      WithoutIsSubsequence(all, locationId);
      modals := kept;
    }
  }

  // ----- opening and closing together -----

  /** Opening a modal and then closing its id leaves the list as closing that id alone would. */
  lemma CloseAfterOpen(s: seq<ModalItemEntry>, p: ModalPayload)
    ensures Without(s + [Normalize(p)], p.locationId) == Without(s, p.locationId)
  {
    WithoutAppend(s, [Normalize(p)], p.locationId);
  }

  /** Closing a different id keeps a freshly opened modal, still last. */
  lemma CloseOtherAfterOpen(s: seq<ModalItemEntry>, p: ModalPayload, id: string)
    requires p.locationId != id
    ensures Without(s + [Normalize(p)], id) == Without(s, id) + [Normalize(p)]
  {
    WithoutAppend(s, [Normalize(p)], id);
  }

  /** Opening the same location id twice leaves two more entries with that id: there is no deduplication. */
  lemma OpenTwiceNoDedup(s: seq<ModalItemEntry>, p: ModalPayload, q: ModalPayload)
    requires p.locationId == q.locationId
    ensures CountId(s + [Normalize(p)] + [Normalize(q)], p.locationId) == CountId(s, p.locationId) + 2
  {
    CountIdAppend(s, Normalize(p), p.locationId);
    CountIdAppend(s + [Normalize(p)], Normalize(q), p.locationId);
  }
}
