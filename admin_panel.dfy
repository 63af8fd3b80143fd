/**
 * The admin panel: the list of every complaint, narrowed by three optional
 * equality filters; the district and category choices derived from the list;
 * and the status update, guarded by an `updating` flag so that only one runs
 * at a time.
 */
module AdminPanel {
  import opened Wrappers
  import opened Js
  import opened Complaints

  /** The three filter selects; "" is the "All ..." choice. */
  datatype Filter = Filter(district: string, status: string, category: string)

  const NoFilter := Filter("", "", "")

  /** A complaint passes when every non-empty filter field equals its field. */
  predicate Matches(f: Filter, c: Complaint) {
    && (f.district == "" || c.district == f.district)
    && (f.status == "" || c.status == f.status)
    && (f.category == "" || c.serviceCategory == f.category)
  }

  /** `complaints.filter(...)`. */
  function FilterComplaints(cs: seq<Complaint>, f: Filter): (r: seq<Complaint>)
    ensures forall c :: c in r <==> c in cs && Matches(f, c)
    ensures |r| <= |cs|
  {
    if cs == [] then []
    else (if Matches(f, cs[0]) then [cs[0]] else []) + FilterComplaints(cs[1..], f)
  }

  /** Every matching entry is kept as often as it occurs, and no other entry is kept. */
  lemma {:induction false} FilterKeepsEveryMatch(cs: seq<Complaint>, f: Filter)
    ensures forall c :: multiset(FilterComplaints(cs, f))[c] == if Matches(f, c) then multiset(cs)[c] else 0
  {
    if cs != [] {
      FilterKeepsEveryMatch(cs[1..], f);
      assert cs == [cs[0]] + cs[1..];
    }
  }

  /** `a` is `b` with some elements left out, the rest in their order. */
  predicate IsSubsequence(a: seq<Complaint>, b: seq<Complaint>)
    decreases |b|
  {
    if a == [] then true
    else if b == [] then false
    else if a[0] == b[0] then IsSubsequence(a[1..], b[1..])
    else IsSubsequence(a, b[1..])
  }

  /** With every select on "All ...", the list is shown unchanged. */
  lemma {:induction false} FilterNothing(cs: seq<Complaint>)
    ensures FilterComplaints(cs, NoFilter) == cs
  {
    if cs != [] {
      FilterNothing(cs[1..]);
    }
  }

  /** `f2` keeps every field `f1` sets, and may set more. */
  predicate Narrows(f2: Filter, f1: Filter) {
    && (f1.district == "" || f2.district == f1.district)
    && (f1.status == "" || f2.status == f1.status)
    && (f1.category == "" || f2.category == f1.category)
  }

  /** Setting more filter fields only removes entries, and never reorders them. */
  lemma {:induction false} FilterNarrowing(cs: seq<Complaint>, f1: Filter, f2: Filter)
    requires Narrows(f2, f1)
    ensures IsSubsequence(FilterComplaints(cs, f2), FilterComplaints(cs, f1))
  {
    if cs != [] {
      var c, rest := cs[0], cs[1..];
      FilterNarrowing(rest, f1, f2);
      var r2, r1 := FilterComplaints(rest, f2), FilterComplaints(rest, f1);
      var l2, l1 := FilterComplaints(cs, f2), FilterComplaints(cs, f1);
      if Matches(f2, c) {
        assert l2 == [c] + r2 && l1 == [c] + r1;
        assert l2[0] == l1[0] && l2[1..] == r2 && l1[1..] == r1;
      } else if Matches(f1, c) {
        assert l2 == r2 && l1 == [c] + r1 && l1[1..] == r1;
        if r2 != [] {
          assert r2[0] in r2;
          assert r2[0] != l1[0];
        }
      } else {
        assert l2 == r2 && l1 == r1;
      }
    }
  }

  /** The filtered list keeps the order of `complaints`. */
  lemma FilterKeepsOrder(cs: seq<Complaint>, f: Filter)
    ensures IsSubsequence(FilterComplaints(cs, f), cs)
  {
    FilterNarrowing(cs, NoFilter, f);
    FilterNothing(cs);
  }

  predicate StrictlyAscending(s: seq<string>) {
    forall i, j :: 0 <= i < j < |s| ==> Less(s[i], s[j])
  }

  /** Adds `x` to an ascending list without duplicating it. */
  function InsertSorted(x: string, s: seq<string>): (r: seq<string>)
    requires StrictlyAscending(s)
    ensures StrictlyAscending(r)
    ensures forall y :: y in r <==> y == x || y in s
  {
    if s == [] then [x]
    else if x == s[0] then s
    else if Less(x, s[0]) then
      assert forall i :: 0 <= i < |s| ==> Less(x, s[i]) by {
        forall i | 0 < i < |s| { LessTransitive(x, s[0], s[i]); }
      }
      [x] + s
    else
      LessTotal(x, s[0]);
      var t := InsertSorted(x, s[1..]);
      assert forall y :: y in t ==> Less(s[0], y) by {
        forall y | y in t ensures Less(s[0], y) {
          if y != x {
            var i :| 0 <= i < |s[1..]| && s[1..][i] == y;
            assert s[i + 1] == y;
          }
        }
      }
      assert forall y :: y in s ==> y == s[0] || y in s[1..] by {
        forall y | y in s ensures y == s[0] || y in s[1..] {
          var i :| 0 <= i < |s| && s[i] == y;
          if i > 0 { assert s[1..][i - 1] == y; }
        }
      }
      [s[0]] + t
  }

  /** `[...new Set(xs)].sort()`: each value once, in ascending order. */
  function SortedDistinct(xs: seq<string>): (r: seq<string>)
    ensures StrictlyAscending(r)
    ensures forall y :: y in r <==> y in xs
  {
    if xs == [] then []
    else
      var init := xs[..|xs| - 1];
      assert xs == init + [xs[|xs| - 1]];
      InsertSorted(xs[|xs| - 1], SortedDistinct(init))
  }

  /** Two ascending lists with the same values are the same list: the choices do not depend on the list's order. */
  lemma {:induction false} AscendingUnique(a: seq<string>, b: seq<string>)
    requires StrictlyAscending(a) && StrictlyAscending(b)
    requires forall y :: y in a <==> y in b
    ensures a == b
  {
    if a != [] {
      assert a[0] in a;
    }
    if b != [] {
      assert b[0] in b;
    }
    if a != [] && b != [] {
      assert a[0] in b && b[0] in a;
      if a[0] != b[0] {
        var i :| 0 <= i < |b| && b[i] == a[0];
        var j :| 0 <= j < |a| && a[j] == b[0];
        assert Less(b[0], a[0]) && Less(a[0], b[0]);
        LessAsymmetric(a[0], b[0]);
      }
      forall y ensures y in a[1..] <==> y in b[1..] {
        if y in a[1..] {
          var i :| 0 <= i < |a[1..]| && a[1..][i] == y;
          assert Less(a[0], y);
          LessIrreflexive(y);
          assert y in a;
          var j :| 0 <= j < |b| && b[j] == y;
          assert j > 0 && b[1..][j - 1] == y;
        }
        if y in b[1..] {
          var j :| 0 <= j < |b[1..]| && b[1..][j] == y;
          assert Less(b[0], y);
          LessIrreflexive(y);
          assert y in b;
          var i :| 0 <= i < |a| && a[i] == y;
          assert i > 0 && a[1..][i - 1] == y;
        }
      }
      AscendingUnique(a[1..], b[1..]);
      assert a == [a[0]] + a[1..] && b == [b[0]] + b[1..];
    }
  }

  /** The district filter's choices: each district present in the list, once, ascending. */
  function DistrictOptions(cs: seq<Complaint>): (r: seq<string>)
    ensures StrictlyAscending(r)
    ensures forall d :: d in r <==> exists i :: 0 <= i < |cs| && cs[i].district == d
  {
    var ds := seq(|cs|, i requires 0 <= i < |cs| => cs[i].district);
    assert forall d :: d in ds <==> exists i :: 0 <= i < |cs| && cs[i].district == d by {
      forall d ensures d in ds <==> exists i :: 0 <= i < |cs| && cs[i].district == d {
        if d in ds { var i :| 0 <= i < |ds| && ds[i] == d; }
        if exists i :: 0 <= i < |cs| && cs[i].district == d {
          var i :| 0 <= i < |cs| && cs[i].district == d;
          assert ds[i] == d;
        }
      }
    }
    SortedDistinct(ds)
  }

  /** The category filter's choices: each service category present in the list, once, ascending. */
  function CategoryOptions(cs: seq<Complaint>): (r: seq<string>)
    ensures StrictlyAscending(r)
    ensures forall g :: g in r <==> exists i :: 0 <= i < |cs| && cs[i].serviceCategory == g
  {
    var gs := seq(|cs|, i requires 0 <= i < |cs| => cs[i].serviceCategory);
    assert forall g :: g in gs <==> exists i :: 0 <= i < |cs| && cs[i].serviceCategory == g by {
      forall g ensures g in gs <==> exists i :: 0 <= i < |cs| && cs[i].serviceCategory == g {
        if g in gs { var i :| 0 <= i < |gs| && gs[i] == g; }
        if exists i :: 0 <= i < |cs| && cs[i].serviceCategory == g {
          var i :| 0 <= i < |cs| && cs[i].serviceCategory == g;
          assert gs[i] == g;
        }
      }
    }
    SortedDistinct(gs)
  }

  /** `{ status, admin_response: adminResponse || undefined }`. */
  function UpdatePatch(status: string, adminResponse: string): (p: Patch)
    ensures p.status == status
    ensures p.adminResponse.Some? <==> adminResponse != ""
    ensures p.adminResponse.Some? ==> p.adminResponse.value == adminResponse
  {
    Patch(status, if adminResponse != "" then Some(adminResponse) else None)
  }

  /**
   * After an admin sets a status and a response on a complaint, the next full
   * list and the owner's next own list both show the complaint with them.
   */
  lemma UpdateSeenByAdminAndOwner(store: Store, id: string, status: string, response: string,
                                  all: seq<Complaint>, own: seq<Complaint>)
    requires WellKeyed(store) && id in store && response != ""
    requires IsAnswer(all, ApplyUpdate(store, id, UpdatePatch(status, response)), All)
    requires IsAnswer(own, ApplyUpdate(store, id, UpdatePatch(status, response)), OwnedBy(store[id].userId))
    ensures exists i :: 0 <= i < |all| && all[i].id == id && all[i].status == status && all[i].adminResponse == Some(response)
    ensures exists i :: 0 <= i < |own| && own[i].id == id && own[i].status == status && own[i].adminResponse == Some(response)
  {
    var p := UpdatePatch(status, response);
    UpdateVisibleInAnswer(store, id, p, all, All);
    UpdateVisibleInAnswer(store, id, p, own, OwnedBy(store[id].userId));
  }

  /** An update sent to the store whose answer has not arrived yet. */
  datatype PendingUpdate = PendingUpdate(id: string, patch: Patch)

  /**
   * Two clicks while the first update is in flight: the second is refused, so
   * only the first update reaches the store.
   */
  method SecondClickRefused(p: Panel, id1: string, s1: string, id2: string, s2: string, updateFails: bool)
    requires !p.updating
    modifies p
    ensures updateFails ==> p.store == old(p.store)
    ensures !updateFails ==> p.store == ApplyUpdate(old(p.store), id1, UpdatePatch(s1, old(p.adminResponse)))
    ensures !p.updating
  {
    p.StartUpdate(id1, s1);
    p.StartUpdate(id2, s2);
    p.FinishUpdate(updateFails);
  }

  /** The panel's state, and the store it reads and writes. */
  class Panel {
    var complaints: seq<Complaint>
    var loading: bool
    var filter: Filter
    var adminResponse: string
    var selectedComplaint: Option<string>
    var updating: bool
    /** The update sent and not yet answered, if any. */
    var pending: Option<PendingUpdate>
    var store: Store

    constructor (store: Store)
      ensures this.store == store
      ensures complaints == [] && loading && filter == NoFilter
      ensures adminResponse == "" && selectedComplaint == None && !updating && pending == None
    {
      this.store := store;
      complaints := [];
      loading := true;
      filter := NoFilter;
      adminResponse := "";
      selectedComplaint := None;
      updating := false;
      pending := None;
    }

    /** The complaints listed under the current filter. */
    function Visible(): (r: seq<Complaint>)
      reads this
      ensures forall c :: c in r <==> c in complaints && Matches(filter, c)
    {
      FilterComplaints(complaints, filter)
    }

    /**
     * `fetchComplaints`: the whole table, newest first (null read as empty); on an
     * error the list is kept. The spinner goes off either way.
     */
    method FetchComplaints(reply: QueryReply)
      requires Answers(reply, store, All)
      modifies this`complaints, this`loading
      ensures !loading
      ensures reply.QueryFailed? ==> complaints == old(complaints)
      ensures reply.Rows? ==> complaints == RowsOf(reply)
      ensures reply.Rows? ==> forall c :: c in complaints ==> c.id in store && store[c.id] == c
      ensures reply.Rows? && reply.data.Some? ==> forall k :: k in store ==> exists i :: 0 <= i < |complaints| && complaints[i].id == k
      ensures reply.Rows? ==> NewestFirst(complaints)
    {
      if reply.Rows? {
        complaints := RowsOf(reply);
      }
      loading := false;
    }

    /** The subscription callback: any change to the table triggers a full refetch. */
    method OnTableChange(reply: QueryReply)
      requires Answers(reply, store, All)
      modifies this`complaints, this`loading
      ensures !loading
      ensures reply.QueryFailed? ==> complaints == old(complaints)
      ensures reply.Rows? ==> complaints == RowsOf(reply)
    {
      FetchComplaints(reply);
    }

    /**
     * The first half of `updateComplaintStatus`, up to the `await`: ignored while
     * another update is in flight; otherwise raises `updating` and sends the
     * status, and the response text when there is one, for the record `id`.
     */
    method StartUpdate(id: string, status: string)
      modifies this`updating, this`pending
      ensures old(updating) ==> updating && pending == old(pending)
      ensures !old(updating) ==> updating && pending == Some(PendingUpdate(id, UpdatePatch(status, adminResponse)))
    {
      if updating {
        return;
      }
      updating := true;
      pending := Some(PendingUpdate(id, UpdatePatch(status, adminResponse)));
    }

    /**
     * The second half, once the store has answered: on success the patch is
     * applied and the response text and the selection are cleared; on failure
     * the store and both are kept. Either way `updating` drops.
     */
    method FinishUpdate(updateFails: bool)
      requires pending.Some?
      modifies this`updating, this`pending, this`adminResponse, this`selectedComplaint, this`store
      ensures !updating && pending == None
      ensures updateFails ==>
                store == old(store) && adminResponse == old(adminResponse) && selectedComplaint == old(selectedComplaint)
      ensures !updateFails ==>
                && store == ApplyUpdate(old(store), old(pending).value.id, old(pending).value.patch)
                && adminResponse == "" && selectedComplaint == None
      ensures WellKeyed(old(store)) ==> WellKeyed(store)
      ensures StatusesValid(old(store)) && ValidStatus(old(pending).value.patch.status) ==> StatusesValid(store)
    {
      var u := pending.value;
      if !updateFails {
        var before := store;
        store := ApplyUpdate(store, u.id, u.patch);
        if WellKeyed(before) {
          UpdateKeepsInvariants(before, u.id, u.patch);
        }
        adminResponse := "";
        selectedComplaint := None;
      }
      updating := false;
      pending := None;
    }

    /**
     * `updateComplaintStatus` when the store answers before anything else
     * happens: a call made while an update is in flight changes nothing;
     * otherwise it runs to completion.
     */
    method UpdateComplaintStatus(id: string, status: string, updateFails: bool)
      modifies this`updating, this`pending, this`adminResponse, this`selectedComplaint, this`store
      ensures old(updating) ==>
                && updating && pending == old(pending) && store == old(store)
                && adminResponse == old(adminResponse) && selectedComplaint == old(selectedComplaint)
      ensures !old(updating) ==> !updating && pending == None
      ensures !old(updating) && updateFails ==>
                store == old(store) && adminResponse == old(adminResponse) && selectedComplaint == old(selectedComplaint)
      ensures !old(updating) && !updateFails ==>
                && store == ApplyUpdate(old(store), id, UpdatePatch(status, old(adminResponse)))
                && adminResponse == "" && selectedComplaint == None
      ensures WellKeyed(old(store)) ==> WellKeyed(store)
      ensures StatusesValid(old(store)) && ValidStatus(status) ==> StatusesValid(store)
    {
      if updating {
        StartUpdate(id, status);
        return;
      }
      StartUpdate(id, status);
      FinishUpdate(updateFails);
    }

    /** "Add Response" on a complaint: it becomes the one whose response box is open. */
    method SelectComplaint(id: string)
      modifies this`selectedComplaint
      ensures selectedComplaint == Some(id)
    {
      selectedComplaint := Some(id);
    }

    /** Typing in the response box. */
    method SetAdminResponse(text: string)
      modifies this`adminResponse
      ensures adminResponse == text
    {
      adminResponse := text;
    }

    /** Choosing in one of the filter selects. */
    method SetFilter(f: Filter)
      modifies this`filter
      ensures filter == f
    {
      filter := f;
    }
  }
}
