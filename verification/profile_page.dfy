/**
 * The profile page: the profile shown, a draft copy the form edits, and the
 * edit/save/cancel cycle between them. Only the email, phone, address,
 * emergency contact and bio have inputs, so editing never reaches the name,
 * role, join date or department.
 */
module Profile {
  import opened Wrappers
  import opened JsString
  import opened Types

  /** The profile's fields, by the `name` an input carries. */
  datatype Field = Name | Email | Phone | RoleField | JoinDate | AddressField | Department | EmergencyContact | Bio

  datatype ProfileData = ProfileData(
    name: string,
    email: string,
    phone: string,
    role: string,
    joinDate: string,
    address: string,
    department: string,
    emergencyContact: string,
    bio: string)
  {
    /** `profile[field]` */
    function Get(f: Field): string {
      match f
      case Name => name
      case Email => email
      case Phone => phone
      case RoleField => role
      case JoinDate => joinDate
      case AddressField => address
      case Department => department
      case EmergencyContact => emergencyContact
      case Bio => bio
    }

    /** `{ ...profile, [field]: value }`: only that field takes the new value. */
    function With(f: Field, value: string): (r: ProfileData)
      ensures r.Get(f) == value
      ensures forall g :: g != f ==> r.Get(g) == Get(g)
    {
      match f
      case Name => this.(name := value)
      case Email => this.(email := value)
      case Phone => this.(phone := value)
      case RoleField => this.(role := value)
      case JoinDate => this.(joinDate := value)
      case AddressField => this.(address := value)
      case Department => this.(department := value)
      case EmergencyContact => this.(emergencyContact := value)
      case Bio => this.(bio := value)
    }
  }

  /** Two profiles that agree on every field are the same profile. */
  lemma FieldsDetermineProfile(p: ProfileData, q: ProfileData)
    requires forall f :: p.Get(f) == q.Get(f)
    ensures p == q
  {
    assert p.Get(Name) == q.Get(Name) && p.Get(Email) == q.Get(Email) && p.Get(Phone) == q.Get(Phone);
    assert p.Get(RoleField) == q.Get(RoleField) && p.Get(JoinDate) == q.Get(JoinDate);
    assert p.Get(AddressField) == q.Get(AddressField) && p.Get(Department) == q.Get(Department);
    assert p.Get(EmergencyContact) == q.Get(EmergencyContact) && p.Get(Bio) == q.Get(Bio);
  }

  /** Writing a field's own value back changes nothing; the later of two writes to one field wins. */
  lemma WithLaws(p: ProfileData, f: Field, v: string, w: string)
    ensures p.With(f, p.Get(f)) == p
    ensures p.With(f, v).With(f, w) == p.With(f, w)
  {
    FieldsDetermineProfile(p.With(f, p.Get(f)), p);
    FieldsDetermineProfile(p.With(f, v).With(f, w), p.With(f, w));
  }

  /** The fields that have an input on the form. */
  predicate HasInput(f: Field) {
    f == Email || f == Phone || f == AddressField || f == EmergencyContact || f == Bio
  }

  /** The placeholder biography of the demonstration profile. */
  const DemoBio := "Lorem ipsum dolor sit amet, consectetur adipiscing elit. Sed do eiusmod tempor incididunt ut labore et dolore magna aliqua. Ut enim ad minim veniam, quis nostrud exercitation ullamco laboris nisi ut aliquip ex ea commodo consequat."

  /** The demonstration profile for the signed-in user, if any. */
  function InitialProfile(user: Option<User>): (p: ProfileData)
    ensures user.None? ==> p.name == "" && p.email == ""
    ensures p.role == "student" <==> user.None? || user.value.role == StudentRole
    ensures p.department == "Computer Science" <==> user.Some? && user.value.role == Faculty
    ensures p.department == "" <==> !(user.Some? && user.value.role == Faculty)
  {
    ProfileData(
      if user.Some? then user.value.name else "",
      if user.Some? then user.value.email else "",
      "(555) 123-4567",
      if user.Some? then user.value.role.Name() else "student",
      "January 15, 2021",
      "123 Campus Drive, University City, CA 90210",
      if user.Some? && user.value.role == Faculty then "Computer Science" else "",
      "John Doe, (555) 987-6543",
      DemoBio)
  }

  /** A run of keystrokes: each names an input and the value it now holds. */
  function ApplyEdits(p: ProfileData, edits: seq<(Field, string)>): ProfileData
    decreases |edits|
  {
    if edits == [] then p else ApplyEdits(p.With(edits[0].0, edits[0].1), edits[1..])
  }

  /**
   * Edits made through the form's inputs leave the name, role, join date
   * and department as they were, and a field no edit names keeps its value.
   */
  lemma {:induction false} EditsKeepOtherFields(p: ProfileData, edits: seq<(Field, string)>, f: Field)
    requires forall i :: 0 <= i < |edits| ==> edits[i].0 != f
    ensures ApplyEdits(p, edits).Get(f) == p.Get(f)
    decreases |edits|
  {
    if edits != [] {
      EditsKeepOtherFields(p.With(edits[0].0, edits[0].1), edits[1..], f);
    }
  }

  lemma FormKeepsFixedFields(p: ProfileData, edits: seq<(Field, string)>)
    requires forall i :: 0 <= i < |edits| ==> HasInput(edits[i].0)
    ensures var q := ApplyEdits(p, edits);
      q.name == p.name && q.role == p.role && q.joinDate == p.joinDate && q.department == p.department
  {
    EditsKeepOtherFields(p, edits, Name);
    EditsKeepOtherFields(p, edits, RoleField);
    EditsKeepOtherFields(p, edits, JoinDate);
    EditsKeepOtherFields(p, edits, Department);
  }

  /** The role badge: the role with its first letter upper-cased. */
  function RoleLabel(role: string): (r: string)
    ensures |r| == |role|
    ensures role != "" ==> r[0] == UpperChar(role[0]) && r[1..] == role[1..]
  {
    Capitalize(role)
  }

  lemma RoleLabels()
    ensures RoleLabel(InitialProfile(None).role) == "Student"
    ensures RoleLabel(Faculty.Name()) == "Faculty" && RoleLabel(Admin.Name()) == "Admin"
  {
  }

  /** The page's state: the profile shown, the draft and whether the form is open. */
  class ProfilePage {
    var profileData: ProfileData
    var formData: ProfileData
    var isEditing: bool

    /** The draft starts as a copy of the profile, with the form closed. */
    constructor(user: Option<User>)
      ensures profileData == InitialProfile(user) && formData == profileData && !isEditing
    {
      profileData := InitialProfile(user);
      formData := InitialProfile(user);
      isEditing := false;
    }

    /** The Edit Profile button opens the form and touches no data. */
    method Edit()
      modifies this
      ensures isEditing
      ensures profileData == old(profileData) && formData == old(formData)
    {
      isEditing := true;
    }

    /** `handleInputChange`: only the named draft field changes. */
    method HandleInputChange(f: Field, value: string)
      modifies this
      ensures formData == old(formData).With(f, value)
      ensures forall g :: g != f ==> formData.Get(g) == old(formData).Get(g)
      ensures profileData == old(profileData) && isEditing == old(isEditing)
    {
      formData := formData.With(f, value);
    }

    /** `handleSave`: the draft becomes the profile and the form closes. */
    method Save()
      modifies this
      ensures profileData == old(formData) && formData == old(formData) && !isEditing
    {
      profileData := formData;
      isEditing := false;
    }

    /**
     * `handleCancel`: the draft is discarded for a copy of the profile and
     * the form closes; from the state it leaves, a second cancel changes
     * nothing.
     */
    method Cancel()
      modifies this
      ensures formData == profileData && profileData == old(profileData) && !isEditing
      ensures old(formData) == old(profileData) && !old(isEditing) ==>
        formData == old(formData) && profileData == old(profileData) && isEditing == old(isEditing)
    {
      formData := profileData;
      isEditing := false;
    }
  }

  /**
   * A whole session: open the form, type, then save or cancel. Saving shows
   * the typed values; cancelling shows the profile as before. Either way the
   * name, role, join date and department are the ones the page started with.
   */
  method EditSession(page: ProfilePage, edits: seq<(Field, string)>, save: bool)
    requires page.formData == page.profileData
    requires forall i :: 0 <= i < |edits| ==> HasInput(edits[i].0)
    modifies page
    ensures page.profileData == if save then ApplyEdits(old(page.profileData), edits) else old(page.profileData)
    ensures page.formData == page.profileData && !page.isEditing
    ensures page.profileData.name == old(page.profileData.name) && page.profileData.role == old(page.profileData.role)
    ensures page.profileData.department == old(page.profileData.department)
  {
    page.Edit();
    var i := 0;
    while i < |edits|
      invariant 0 <= i <= |edits|
      invariant page.profileData == old(page.profileData)
      invariant ApplyEdits(page.formData, edits[i..]) == ApplyEdits(old(page.profileData), edits)
      invariant page.formData.name == old(page.profileData.name) && page.formData.role == old(page.profileData.role)
      invariant page.formData.department == old(page.profileData.department)
    {
      assert edits[i..][1..] == edits[i + 1..];
      page.HandleInputChange(edits[i].0, edits[i].1);
      i := i + 1;
    }
    if save {
      page.Save();
    } else {
      page.Cancel();
    }
  }
}
