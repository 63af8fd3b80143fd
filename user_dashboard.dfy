/**
 * The citizen dashboard: sends a visitor without a session to the login page;
 * otherwise lists the user's own complaints, newest first, with a coloured
 * status badge and the admin's response, and refetches whenever one of them
 * is updated, raising a notice when the update carries a response.
 */
module UserDashboard {
  import opened Wrappers
  import opened Js
  import opened Complaints

  const LoginPath := "/login"

  /** What the mount effect does for the current session. */
  datatype MountEffect = RedirectToLogin | FetchAndSubscribe

  function OnSession(hasSession: bool): (e: MountEffect)
    ensures e == RedirectToLogin <==> !hasSession
    ensures e == FetchAndSubscribe <==> hasSession
  {
    if !hasSession then RedirectToLogin else FetchAndSubscribe
  }

  /** `status.charAt(0).toUpperCase() + status.slice(1)`. */
  function StatusLabel(status: string): (l: string)
    ensures |l| == |status|
    ensures status != "" ==> l[0] == UpperCase(status[0]) && l[1..] == status[1..]
  {
    if status == "" then "" else [UpperCase(status[0])] + status[1..]
  }

  /** The four labels; only the first letter changes, so "in_progress" reads "In_progress". */
  lemma StatusLabels()
    ensures StatusLabel(Pending) == "Pending"
    ensures StatusLabel(InProgress) == "In_progress"
    ensures StatusLabel(Resolved) == "Resolved"
    ensures StatusLabel(Rejected) == "Rejected"
  {
    assert StatusLabel(Pending) == [UpperCase('p')] + "ending";
    assert StatusLabel(InProgress) == [UpperCase('i')] + "n_progress";
    assert StatusLabel(Resolved) == [UpperCase('r')] + "esolved";
    assert StatusLabel(Rejected) == [UpperCase('r')] + "ejected";
  }

  /** A label is its own label. */
  lemma StatusLabelIdempotent(status: string)
    ensures StatusLabel(StatusLabel(status)) == StatusLabel(status)
  {
  }

  datatype Badge = Yellow | Blue | Green | Red

  /** The badge's colour classes, by status. */
  function BadgeColour(status: string): (b: Badge)
    ensures b == Yellow <==> status == Pending
    ensures b == Blue <==> status == InProgress
    ensures b == Green <==> status == Resolved
    ensures b == Red <==> status != Pending && status != InProgress && status != Resolved
  {
    if status == Pending then Yellow
    else if status == InProgress then Blue
    else if status == Resolved then Green
    else Red
  }

  /** Among the four statuses only "rejected" is red, so the badge tells each status apart. */
  lemma BadgeTellsStatusesApart(s1: string, s2: string)
    requires ValidStatus(s1) && ValidStatus(s2)
    ensures BadgeColour(s1) == Red <==> s1 == Rejected
    ensures BadgeColour(s1) == BadgeColour(s2) <==> s1 == s2
  {
  }

  /** The subscription callback's decision on an UPDATE of one of the user's rows. */
  datatype Notice = Notice(toast: bool, refetch: bool)

  function OnUpdate(updated: Complaint): (n: Notice)
    ensures n.refetch
    ensures n.toast <==> Truthy(updated.adminResponse)
  {
    Notice(Truthy(updated.adminResponse), true)
  }

  /** One entry of the list as shown. */
  datatype Card = Card(category: string, statusLabel: string, badge: Badge, description: string, response: Option<string>)

  /** The response block, present only when the response is set and not empty. */
  function ResponseShown(c: Complaint): (r: Option<string>)
    ensures r.Some? <==> Truthy(c.adminResponse)
    ensures r.Some? ==> r == c.adminResponse
  {
    if Truthy(c.adminResponse) then c.adminResponse else None
  }

  function CardOf(c: Complaint): Card {
    Card(c.serviceCategory, StatusLabel(c.status), BadgeColour(c.status), c.description, ResponseShown(c))
  }

  datatype View = Spinner | EmptyState | Cards(items: seq<Card>)

  /** The spinner while loading, the empty state for no complaints, otherwise one card per complaint in order. */
  function Render(loading: bool, complaints: seq<Complaint>): (v: View)
    ensures loading ==> v == Spinner
    ensures !loading && complaints == [] ==> v == EmptyState
    ensures !loading && complaints != [] ==>
              v.Cards? && |v.items| == |complaints| && forall i :: 0 <= i < |complaints| ==> v.items[i] == CardOf(complaints[i])
  {
    if loading then Spinner
    else if complaints == [] then EmptyState
    else Cards(seq(|complaints|, i requires 0 <= i < |complaints| => CardOf(complaints[i])))
  }

  /** The dashboard component's state. */
  class Dashboard {
    var complaints: seq<Complaint>
    var loading: bool

    constructor ()
      ensures complaints == [] && loading
    {
      complaints := [];
      loading := true;
    }

    /**
     * `fetchComplaints`: the user's own rows, newest first (null read as empty);
     * on an error the list is kept. The spinner goes off either way.
     */
    method FetchComplaints(store: Store, uid: string, reply: QueryReply)
      requires Answers(reply, store, OwnedBy(uid))
      modifies this
      ensures !loading
      ensures reply.QueryFailed? ==> complaints == old(complaints)
      ensures reply.Rows? ==> complaints == RowsOf(reply)
      ensures reply.Rows? ==> forall i :: 0 <= i < |complaints| ==> complaints[i].userId == uid
      ensures reply.Rows? ==> NewestFirst(complaints)
    {
      if reply.Rows? {
        complaints := RowsOf(reply);
      }
      loading := false;
    }

    /**
     * The mount effect: without a session, navigate to the login page and
     * neither fetch nor subscribe; with one, fetch and subscribe.
     */
    method Mount(hasSession: bool, store: Store, uid: string, reply: QueryReply)
      returns (navigate: Option<string>, subscribed: bool)
      requires Answers(reply, store, OwnedBy(uid))
      modifies this
      ensures !hasSession ==>
                navigate == Some(LoginPath) && !subscribed && complaints == old(complaints) && loading == old(loading)
      ensures hasSession ==> navigate == None && subscribed && !loading
      ensures hasSession && reply.QueryFailed? ==> complaints == old(complaints)
      ensures hasSession && reply.Rows? ==> complaints == RowsOf(reply)
    {
      match OnSession(hasSession)
      case RedirectToLogin =>
        navigate, subscribed := Some(LoginPath), false;
      case FetchAndSubscribe =>
        FetchComplaints(store, uid, reply);
        navigate, subscribed := None, true;
    }

    /**
     * The subscription callback: a notice when the updated row carries a
     * response, then a refetch in every case.
     */
    method OnComplaintUpdated(updated: Complaint, store: Store, uid: string, reply: QueryReply)
      returns (toast: bool)
      requires Answers(reply, store, OwnedBy(uid))
      modifies this
      ensures toast <==> Truthy(updated.adminResponse)
      ensures !loading
      ensures reply.QueryFailed? ==> complaints == old(complaints)
      ensures reply.Rows? ==> complaints == RowsOf(reply)
    {
      var n := OnUpdate(updated);
      toast := n.toast;
      if n.refetch {
        FetchComplaints(store, uid, reply);
      }
    }
  }
}
