/**
 * The public complaint form: six text fields, two of them chosen from fixed
 * lists, a field-wise change handler, and the submission, which inserts a
 * `pending` complaint owned by the signed-in user (or by the anonymous owner)
 * and clears the form only when the insert succeeds.
 */
module ComplaintForm {
  import opened Wrappers
  import opened Js
  import opened Complaints

  /**
   * The fourteen districts of Kerala offered by the district select; none is
   * empty, so none can be taken for the empty placeholder option.
   */
  function Districts(): (r: seq<string>)
    ensures |r| == 14
    ensures "" !in r
    ensures forall i, j :: 0 <= i < j < |r| ==> r[i] != r[j]
  {
    ["Thiruvananthapuram", "Kollam", "Pathanamthitta", "Alappuzha", "Kottayam", "Idukki", "Ernakulam",
     "Thrissur", "Palakkad", "Malappuram", "Kozhikode", "Wayanad", "Kannur", "Kasaragod"]
  }

  /** The thirteen service categories offered by the category select, none of them the empty placeholder. */
  function ServiceCategories(): (r: seq<string>)
    ensures |r| == 13
    ensures "" !in r
    ensures forall i, j :: 0 <= i < j < |r| ==> r[i] != r[j]
  {
    ["Water Supply (Kerala Water Authority)", "Electricity (KSEB)", "Road Maintenance (PWD)",
     "Waste Management", "Public Transport (KSRTC)", "Healthcare (Kerala Health Services)", "Education",
     "Agriculture", "Social Welfare", "Revenue Department", "Civil Supplies", "Police", "Local Self Government"]
  }

  datatype FormData = FormData(
    name: string,
    phone: string,
    address: string,
    district: string,
    serviceCategory: string,
    description: string)

  const EmptyForm := FormData("", "", "", "", "", "")

  /** The `name` attributes of the form's inputs. */
  datatype Field = Name | Phone | Address | District | ServiceCategory | Description

  /** `formData[field]`. */
  function FieldValue(fd: FormData, f: Field): string {
    match f
    case Name => fd.name
    case Phone => fd.phone
    case Address => fd.address
    case District => fd.district
    case ServiceCategory => fd.serviceCategory
    case Description => fd.description
  }

  /** A form is determined by the values of its six fields. */
  lemma FieldsDetermineForm(a: FormData, b: FormData)
    requires forall f :: FieldValue(a, f) == FieldValue(b, f)
    ensures a == b
  {
    assert FieldValue(a, Name) == FieldValue(b, Name);
    assert FieldValue(a, Phone) == FieldValue(b, Phone);
    assert FieldValue(a, Address) == FieldValue(b, Address);
    assert FieldValue(a, District) == FieldValue(b, District);
    assert FieldValue(a, ServiceCategory) == FieldValue(b, ServiceCategory);
    assert FieldValue(a, Description) == FieldValue(b, Description);
  }

  /** `{ ...formData, [name]: value }`. */
  function Change(fd: FormData, f: Field, value: string): (r: FormData)
    ensures FieldValue(r, f) == value
    ensures forall g :: g != f ==> FieldValue(r, g) == FieldValue(fd, g)
  {
    match f
    case Name => fd.(name := value)
    case Phone => fd.(phone := value)
    case Address => fd.(address := value)
    case District => fd.(district := value)
    case ServiceCategory => fd.(serviceCategory := value)
    case Description => fd.(description := value)
  }

  /** Changes to two different fields can be made in either order. */
  lemma ChangesCommute(fd: FormData, f: Field, g: Field, v: string, w: string)
    requires f != g
    ensures Change(Change(fd, f, v), g, w) == Change(Change(fd, g, w), f, v)
  {
    FieldsDetermineForm(Change(Change(fd, f, v), g, w), Change(Change(fd, g, w), f, v));
  }

  /** Of two changes to one field only the last one counts. */
  lemma LastChangeWins(fd: FormData, f: Field, v: string, w: string)
    ensures Change(Change(fd, f, v), f, w) == Change(fd, f, w)
  {
    FieldsDetermineForm(Change(Change(fd, f, v), f, w), Change(fd, f, w));
  }

  /** The signed-in user as the form sees it. */
  datatype User = User(id: string, email: Option<string>)

  /** `user?.id || '00000000-0000-0000-0000-000000000000'`. */
  function OwnerId(user: Option<User>): (id: string)
    ensures id != ""
    ensures user.Some? && user.value.id != "" ==> id == user.value.id
    ensures user.None? || user.value.id == "" ==> id == AnonymousUserId
  {
    if user.Some? && user.value.id != "" then user.value.id else AnonymousUserId
  }

  /** `user?.email || ''`. */
  function OwnerEmail(user: Option<User>): (email: string)
    ensures user.Some? && Truthy(user.value.email) ==> email == user.value.email.value
    ensures !(user.Some? && Truthy(user.value.email)) ==> email == ""
  {
    if user.Some? && Truthy(user.value.email) then user.value.email.value else ""
  }

  /** The six form fields of a payload. */
  function FormOf(p: NewComplaint): FormData {
    FormData(p.name, p.phone, p.address, p.district, p.serviceCategory, p.description)
  }

  /** `{ ...formData, user_id, user_email, status: 'pending' }`. */
  function InsertPayload(fd: FormData, user: Option<User>): (p: NewComplaint)
    ensures p.status == Pending && ValidStatus(p.status)
    ensures FormOf(p) == fd
    ensures p.userId == OwnerId(user) && p.userEmail == OwnerEmail(user)
  {
    NewComplaint(fd.name, fd.phone, fd.address, fd.district, fd.serviceCategory, fd.description,
                 OwnerId(user), OwnerEmail(user), Pending)
  }

  /**
   * The record a submission creates: pending, without a response, holding the
   * form's fields unchanged, owned by the user or else by the anonymous owner.
   */
  lemma SubmissionCreatesPendingRecord(store: Store, fd: FormData, user: Option<User>, id: string, createdAt: int)
    requires id !in store
    ensures var c := Insert(store, InsertPayload(fd, user), id, createdAt)[id];
            && c.status == Pending && c.adminResponse == None
            && c.name == fd.name && c.phone == fd.phone && c.address == fd.address
            && c.district == fd.district && c.serviceCategory == fd.serviceCategory && c.description == fd.description
            && (user.None? ==> c.userId == AnonymousUserId && c.userEmail == "")
  {
    var p := InsertPayload(fd, user);
    assert FormOf(p) == fd;
  }

  /** The form component's state. */
  class Form {
    var formData: FormData

    constructor ()
      ensures formData == EmptyForm
    {
      formData := EmptyForm;
    }

    /** `handleChange`: sets the named field to the input's value. */
    method HandleChange(f: Field, value: string)
      modifies this
      ensures formData == Change(old(formData), f, value)
    {
      formData := Change(formData, f, value);
    }

    /**
     * `handleSubmit`: sends the insert payload built from the current fields and
     * the user; resets every field after a successful insert and keeps them all
     * after a failed one. No field is checked here.
     */
    method HandleSubmit(user: Option<User>, insertFails: bool) returns (sent: NewComplaint)
      modifies this
      ensures sent == InsertPayload(old(formData), user)
      ensures insertFails ==> formData == old(formData)
      ensures !insertFails ==> formData == EmptyForm && forall f :: FieldValue(formData, f) == ""
    {
      sent := InsertPayload(formData, user);
      if !insertFails {
        formData := EmptyForm;
      }
    }
  }
}
