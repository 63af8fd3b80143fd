/**
 * The `complaints` table as the views see it: the record, the four statuses
 * offered in the admin panel, the store as a map from id to record, and what
 * the store does for an insert, an `update(...).eq('id', id)` and a
 * `select(...).order('created_at', { ascending: false })` query.
 */
module Complaints {
  import opened Wrappers

  const Pending := "pending"
  const InProgress := "in_progress"
  const Resolved := "resolved"
  const Rejected := "rejected"

  /** The owner id recorded for a submission made without a signed-in user. */
  const AnonymousUserId := "00000000-0000-0000-0000-000000000000"

  /** The status values offered by the admin panel's selects. */
  predicate ValidStatus(s: string) {
    s == Pending || s == InProgress || s == Resolved || s == Rejected
  }

  /** A row of the table; `createdAt` is the creation instant, `adminResponse` is null until an admin answers. */
  datatype Complaint = Complaint(
    id: string,
    name: string,
    phone: string,
    address: string,
    district: string,
    serviceCategory: string,
    status: string,
    createdAt: int,
    description: string,
    adminResponse: Option<string>,
    userEmail: string,
    userId: string)

  /** The insert payload a submission sends; the store adds the id, the creation time and a null response. */
  datatype NewComplaint = NewComplaint(
    name: string,
    phone: string,
    address: string,
    district: string,
    serviceCategory: string,
    description: string,
    userId: string,
    userEmail: string,
    status: string)

  type Store = map<string, Complaint>

  /** Every record is filed under its own id. */
  predicate WellKeyed(store: Store) {
    forall k :: k in store ==> store[k].id == k
  }

  predicate StatusesValid(store: Store) {
    forall k :: k in store ==> ValidStatus(store[k].status)
  }

  /** The store's insert: a new record under a freshly generated id. */
  function Insert(store: Store, p: NewComplaint, id: string, createdAt: int): (s: Store)
    requires id !in store
    ensures s.Keys == store.Keys + {id}
    ensures forall k :: k in store ==> s[k] == store[k]
    ensures s[id] == Complaint(id, p.name, p.phone, p.address, p.district, p.serviceCategory, p.status,
                               createdAt, p.description, None, p.userEmail, p.userId)
  {
    store[id := Complaint(id, p.name, p.phone, p.address, p.district, p.serviceCategory, p.status,
                          createdAt, p.description, None, p.userEmail, p.userId)]
  }

  /**
   * An update payload. A field left `undefined` in the payload is dropped when it
   * is serialised, so a `None` response leaves the stored response as it was.
   */
  datatype Patch = Patch(status: string, adminResponse: Option<string>)

  function Patched(c: Complaint, p: Patch): (d: Complaint)
    ensures d.status == p.status
    ensures d.adminResponse == if p.adminResponse.Some? then p.adminResponse else c.adminResponse
    ensures d.(status := c.status, adminResponse := c.adminResponse) == c
  {
    c.(status := p.status, adminResponse := if p.adminResponse.Some? then p.adminResponse else c.adminResponse)
  }

  /** `update(p).eq('id', id)`: patches the record with that id, if there is one, and nothing else. */
  function ApplyUpdate(store: Store, id: string, p: Patch): (s: Store)
    ensures s.Keys == store.Keys
    ensures forall k :: k in store && k != id ==> s[k] == store[k]
    ensures id in store ==> s[id] == Patched(store[id], p)
  {
    if id in store then store[id := Patched(store[id], p)] else store
  }

  /** Repeating an update leaves the store as one update did. */
  lemma UpdateIdempotent(store: Store, id: string, p: Patch)
    ensures ApplyUpdate(ApplyUpdate(store, id, p), id, p) == ApplyUpdate(store, id, p)
  {
  }

  /**
   * An update never moves a record, never changes its id, owner or creation
   * time, and keeps every status valid when the new status is one of the four.
   */
  lemma UpdateKeepsInvariants(store: Store, id: string, p: Patch)
    requires WellKeyed(store)
    ensures WellKeyed(ApplyUpdate(store, id, p))
    ensures StatusesValid(store) && ValidStatus(p.status) ==> StatusesValid(ApplyUpdate(store, id, p))
    ensures forall k :: k in store ==>
              var c := ApplyUpdate(store, id, p)[k];
              c.id == store[k].id && c.userId == store[k].userId && c.createdAt == store[k].createdAt
  {
  }

  /** Which rows a query selects: all of them, or those of one owner (`.eq('user_id', uid)`). */
  datatype Scope = All | OwnedBy(userId: string)

  predicate InScope(scope: Scope, c: Complaint) {
    scope.All? || c.userId == scope.userId
  }

  /** `order('created_at', { ascending: false })`; the order among equal instants is the store's. */
  predicate NewestFirst(rows: seq<Complaint>) {
    forall i, j :: 0 <= i < j < |rows| ==> rows[i].createdAt >= rows[j].createdAt
  }

  /** `rows` is a correct answer of the store to the query for `scope`. */
  ghost predicate IsAnswer(rows: seq<Complaint>, store: Store, scope: Scope) {
    && (forall i :: 0 <= i < |rows| ==> rows[i].id in store && store[rows[i].id] == rows[i] && InScope(scope, rows[i]))
    && (forall k :: k in store && InScope(scope, store[k]) ==> exists i :: 0 <= i < |rows| && rows[i].id == k)
    && (forall i, j :: 0 <= i < j < |rows| ==> rows[i].id != rows[j].id)
    && NewestFirst(rows)
  }

  /** What a query returns: an error, or `data`, which may be null. */
  datatype QueryReply = QueryFailed(message: string) | Rows(data: Option<seq<Complaint>>)

  /** The store keeps its side of the query: any row list it returns is a correct answer. */
  ghost predicate Answers(reply: QueryReply, store: Store, scope: Scope) {
    reply.Rows? && reply.data.Some? ==> IsAnswer(reply.data.value, store, scope)
  }

  /** `data || []`. */
  function RowsOf(reply: QueryReply): (rows: seq<Complaint>)
    requires reply.Rows?
    ensures reply.data.None? ==> rows == []
    ensures reply.data.Some? ==> rows == reply.data.value
  {
    if reply.data.Some? then reply.data.value else []
  }

  /** The first index at which `c` can go without breaking newest-first order. */
  function Slot(c: Complaint, rows: seq<Complaint>): (p: nat)
    ensures p <= |rows|
    ensures forall i :: 0 <= i < p ==> rows[i].createdAt > c.createdAt
    ensures p < |rows| ==> rows[p].createdAt <= c.createdAt
  {
    if rows == [] || rows[0].createdAt <= c.createdAt then 0 else 1 + Slot(c, rows[1..])
  }

  /**
   * Every store holds a correct answer to every query, so requiring the store to
   * return one never rules out a reply.
   */
  lemma {:induction false} AnswerExists(store: Store, scope: Scope)
    requires WellKeyed(store)
    ensures exists rows :: IsAnswer(rows, store, scope)
    decreases store.Keys
  {
    if store == map[] {
      assert IsAnswer([], store, scope);
    } else {
      var k :| k in store;
      var rest := store - {k};
      assert rest.Keys < store.Keys;
      AnswerExists(rest, scope);
      var rows: seq<Complaint> :| IsAnswer(rows, rest, scope);
      if InScope(scope, store[k]) {
        AddToAnswer(rows, rest, store, k, scope);
      } else {
        forall k' | k' in store && InScope(scope, store[k'])
          ensures exists i :: 0 <= i < |rows| && rows[i].id == k'
        {
          assert k' != k && k' in rest;
        }
        assert IsAnswer(rows, store, scope);
      }
    }
  }

  /** `rows` with `c` placed at index `p`. */
  function InsertAt(rows: seq<Complaint>, p: nat, c: Complaint): (r: seq<Complaint>)
    requires p <= |rows|
    ensures |r| == |rows| + 1
    ensures forall i :: 0 <= i < p ==> r[i] == rows[i]
    ensures r[p] == c
    ensures forall i :: p < i < |r| ==> r[i] == rows[i - 1]
  {
    rows[..p] + [c] + rows[p..]
  }

  /** Placing a new in-scope record at its slot turns an answer for the rest of the store into one for the whole. */
  lemma AddToAnswer(rows: seq<Complaint>, rest: Store, store: Store, k: string, scope: Scope)
    requires WellKeyed(store) && k in store && rest == store - {k}
    requires InScope(scope, store[k]) && IsAnswer(rows, rest, scope)
    ensures IsAnswer(InsertAt(rows, Slot(store[k], rows), store[k]), store, scope)
  {
    var c := store[k];
    var p := Slot(c, rows);
    forall i | 0 <= i < |rows|
      ensures rows[i].id in store && rows[i].id != k && store[rows[i].id] == rows[i]
    {
      assert rows[i].id in rest;
    }
    InsertAtMembers(rows, p, store, c, scope);
    InsertAtComplete(rows, p, rest, store, k, scope);
    InsertAtDistinct(rows, p, c);
    InsertAtSlotOrdered(rows, c);
  }

  lemma InsertAtMembers(rows: seq<Complaint>, p: nat, store: Store, c: Complaint, scope: Scope)
    requires p <= |rows|
    requires forall i :: 0 <= i < |rows| ==> rows[i].id in store && store[rows[i].id] == rows[i] && InScope(scope, rows[i])
    requires c.id in store && store[c.id] == c && InScope(scope, c)
    ensures var r := InsertAt(rows, p, c);
            forall i :: 0 <= i < |r| ==> r[i].id in store && store[r[i].id] == r[i] && InScope(scope, r[i])
  {
    var r := InsertAt(rows, p, c);
    forall i | 0 <= i < |r|
      ensures r[i].id in store && store[r[i].id] == r[i] && InScope(scope, r[i])
    {
      if i > p {
        assert r[i] == rows[i - 1];
      }
    }
  }

  lemma InsertAtComplete(rows: seq<Complaint>, p: nat, rest: Store, store: Store, k: string, scope: Scope)
    requires p <= |rows| && k in store && rest == store - {k}
    requires store[k].id == k
    requires forall k' :: k' in rest && InScope(scope, rest[k']) ==> exists i :: 0 <= i < |rows| && rows[i].id == k'
    ensures var r := InsertAt(rows, p, store[k]);
            forall k' :: k' in store && InScope(scope, store[k']) ==> exists i :: 0 <= i < |r| && r[i].id == k'
  {
    var r := InsertAt(rows, p, store[k]);
    forall k' | k' in store && InScope(scope, store[k'])
      ensures exists i :: 0 <= i < |r| && r[i].id == k'
    {
      if k' == k {
        assert r[p].id == k';
      } else {
        assert k' in rest && rest[k'] == store[k'];
        var j :| 0 <= j < |rows| && rows[j].id == k';
        var i := if j < p then j else j + 1;
        assert r[i].id == k';
      }
    }
  }

  lemma InsertAtDistinct(rows: seq<Complaint>, p: nat, c: Complaint)
    requires p <= |rows|
    requires forall i, j :: 0 <= i < j < |rows| ==> rows[i].id != rows[j].id
    requires forall i :: 0 <= i < |rows| ==> rows[i].id != c.id
    ensures var r := InsertAt(rows, p, c);
            forall i, j :: 0 <= i < j < |r| ==> r[i].id != r[j].id
  {
    var r := InsertAt(rows, p, c);
    forall i, j | 0 <= i < j < |r|
      ensures r[i].id != r[j].id
    {
      if i > p {
        assert r[i] == rows[i - 1] && r[j] == rows[j - 1];
      }
    }
  }

  lemma InsertAtSlotOrdered(rows: seq<Complaint>, c: Complaint)
    requires NewestFirst(rows)
    ensures NewestFirst(InsertAt(rows, Slot(c, rows), c))
  {
    var p := Slot(c, rows);
    var r := InsertAt(rows, p, c);
    forall i, j | 0 <= i < j < |r|
      ensures r[i].createdAt >= r[j].createdAt
    {
      if i == p && p < |rows| {
        assert rows[p].createdAt >= rows[j - 1].createdAt;
      } else if i > p {
        assert r[i] == rows[i - 1] && r[j] == rows[j - 1];
      }
    }
  }

  /** An update on an in-scope record shows, patched, in the next answer to that scope. */
  lemma UpdateVisibleInAnswer(store: Store, id: string, p: Patch, rows: seq<Complaint>, scope: Scope)
    requires WellKeyed(store) && id in store && InScope(scope, store[id])
    requires IsAnswer(rows, ApplyUpdate(store, id, p), scope)
    ensures exists i :: 0 <= i < |rows| && rows[i] == Patched(store[id], p)
  {
    var s := ApplyUpdate(store, id, p);
    assert id in s && InScope(scope, s[id]);
    var i :| 0 <= i < |rows| && rows[i].id == id;
    assert rows[i] == s[id];
  }

  /** A submission filed under the anonymous owner never shows in a signed-in user's own list. */
  lemma AnonymousNotListed(store: Store, p: NewComplaint, id: string, createdAt: int, rows: seq<Complaint>, uid: string)
    requires id !in store && p.userId == AnonymousUserId && uid != AnonymousUserId
    requires IsAnswer(rows, Insert(store, p, id, createdAt), OwnedBy(uid))
    ensures forall i :: 0 <= i < |rows| ==> rows[i].id != id
  {
  }
}
