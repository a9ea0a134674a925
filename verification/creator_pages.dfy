/** Listing the calls of one creator, in one scan and page by page. */
module CreatorPages {
  import opened Basics
  import opened RegistryState

  const MAX_CALL_PAGE_SIZE: nat := 20

  /** The creator's calls with number `from` or higher, in order. */
  function CallsFrom(s: Registry, creator: Address, from: nat): seq<(nat, Call)>
    decreases s.callCounter + 1 - from
  {
    if from > s.callCounter then []
    else (if from in s.calls && s.calls[from].creator == creator then [(from, s.calls[from])] else [])
         + CallsFrom(s, creator, from + 1)
  }

  lemma CallsFromUnfolds(s: Registry, creator: Address, from: nat)
    ensures CallsFrom(s, creator, from)
            == if from > s.callCounter then []
               else (if from in s.calls && s.calls[from].creator == creator then [(from, s.calls[from])] else [])
                    + CallsFrom(s, creator, from + 1)
  {
  }

  function PageSize(limit: nat): nat {
    if limit <= MAX_CALL_PAGE_SIZE then limit else MAX_CALL_PAGE_SIZE
  }

  /** The first page of the creator's calls from `startId` on. */
  function Page(s: Registry, creator: Address, startId: nat, limit: nat): seq<(nat, Call)> {
    var all := CallsFrom(s, creator, if startId < 1 then 1 else startId);
    if |all| <= PageSize(limit) then all else all[..PageSize(limit)]
  }

  /** What a client collects by asking for page after page, each starting behind the
      last call it has seen, until a page comes back short. */
  function AllPages(s: Registry, creator: Address, startId: nat, limit: nat): seq<(nat, Call)>
    requires limit > 0
    decreases s.callCounter + 1 - startId
  {
    var page := Page(s, creator, startId, limit);
    if |page| < PageSize(limit) then page
    else
      PageIsSorted(s, creator, startId, limit);
      page + AllPages(s, creator, page[|page| - 1].0 + 1, limit)
  }

  /** An entry of the list: one of the creator's calls in the range, as stored. */
  predicate Listed(s: Registry, creator: Address, from: nat, entry: (nat, Call)) {
    from <= entry.0 <= s.callCounter && entry.0 in s.calls && s.calls[entry.0] == entry.1 && entry.1.creator == creator
  }

  predicate Increasing(list: seq<(nat, Call)>) {
    forall i, j :: 0 <= i < j < |list| ==> list[i].0 < list[j].0
  }

  /** The list is exactly the creator's calls in the range, in increasing order. */
  lemma {:induction false} CallsFromIsTheList(s: Registry, creator: Address, from: nat)
    ensures var list := CallsFrom(s, creator, from);
      && (forall entry :: entry in list <==> Listed(s, creator, from, entry))
      && Increasing(list)
    decreases s.callCounter + 1 - from
  {
    if from <= s.callCounter {
      var list, rest := CallsFrom(s, creator, from), CallsFrom(s, creator, from + 1);
      CallsFromIsTheList(s, creator, from + 1);
      if from in s.calls && s.calls[from].creator == creator {
        var first := (from, s.calls[from]);
        assert list == [first] + rest;
        forall entry ensures entry in list <==> Listed(s, creator, from, entry) {
          assert entry in list <==> entry == first || entry in rest;
          assert Listed(s, creator, from, entry) <==> entry == first || Listed(s, creator, from + 1, entry);
        }
        forall i, j | 0 <= i < j < |list| ensures list[i].0 < list[j].0 {
          assert list[j] == rest[j - 1] && rest[j - 1] in rest;
          assert Listed(s, creator, from + 1, rest[j - 1]);
        }
      } else {
        assert list == rest;
        assert forall entry :: Listed(s, creator, from, entry) <==> Listed(s, creator, from + 1, entry);
      }
    }
  }

  lemma PageIsSorted(s: Registry, creator: Address, startId: nat, limit: nat)
    ensures var page := Page(s, creator, startId, limit);
      forall i :: 0 <= i < |page| ==> startId <= page[i].0 <= s.callCounter
  {
    var first: nat := if startId < 1 then 1 else startId;
    CallsFromIsTheList(s, creator, first);
    var page := Page(s, creator, startId, limit);
    forall i | 0 <= i < |page| ensures startId <= page[i].0 <= s.callCounter {
      assert page[i] in CallsFrom(s, creator, first);
      assert Listed(s, creator, first, page[i]);
    }
  }

  /** Dropping what comes up to and including one listed call leaves the list that
      starts behind it. */
  lemma {:induction false} ListBehind(s: Registry, creator: Address, from: nat, k: nat)
    requires k < |CallsFrom(s, creator, from)|
    ensures CallsFrom(s, creator, from)[k + 1..] == CallsFrom(s, creator, CallsFrom(s, creator, from)[k].0 + 1)
    decreases s.callCounter + 1 - from
  {
    var rest := CallsFrom(s, creator, from + 1);
    if from in s.calls && s.calls[from].creator == creator {
      assert CallsFrom(s, creator, from) == [(from, s.calls[from])] + rest;
      if k > 0 {
        ListBehind(s, creator, from + 1, k - 1);
      }
    } else {
      assert CallsFrom(s, creator, from) == rest;
      ListBehind(s, creator, from + 1, k);
    }
  }

  /** A page is the beginning of the list: all of it if it fits, otherwise as many calls as
      asked for, and never more than 20. */
  lemma PageIsBounded(s: Registry, creator: Address, startId: nat, limit: nat)
    ensures var all := CallsFrom(s, creator, if startId < 1 then 1 else startId);
      var page := Page(s, creator, startId, limit);
      && page <= all && |page| <= limit && |page| <= 20
      && (|page| == |all| || |page| == limit || |page| == 20)
  {
    hide CallsFrom;
  }

  /** Paging never skips or repeats a call: the pages together are the full scan. */
  lemma {:induction false} PagesCoverTheScan(s: Registry, creator: Address, startId: nat, limit: nat)
    requires limit > 0
    ensures AllPages(s, creator, startId, limit) == CallsFrom(s, creator, if startId < 1 then 1 else startId)
    decreases s.callCounter + 1 - startId
  {
    hide CallsFrom, Page;
    var first: nat := if startId < 1 then 1 else startId;
    var all, page, size := CallsFrom(s, creator, first), Page(s, creator, startId, limit), PageSize(limit);
    PageIsPrefix(s, creator, startId, limit);
    if |page| == size {
      var next := page[size - 1].0 + 1;
      PageIsSorted(s, creator, startId, limit);
      assert page[size - 1] == all[size - 1];
      ListBehind(s, creator, first, size - 1);
      assert all[size..] == CallsFrom(s, creator, next);
      PagesCoverTheScan(s, creator, next, limit);
      assert AllPages(s, creator, startId, limit) == page + all[size..];
    }
  }

  lemma PageIsPrefix(s: Registry, creator: Address, startId: nat, limit: nat)
    ensures var all := CallsFrom(s, creator, if startId < 1 then 1 else startId);
      var page := Page(s, creator, startId, limit);
      if |page| < PageSize(limit) then page == all
      else |page| == PageSize(limit) <= |all| && all == page + all[|page|..]
  {
    hide CallsFrom;
  }
}
