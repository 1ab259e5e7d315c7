/**
  The settings tab of a project (`src/components/ProjectSettings.jsx`):
  the form seeded from the project, with a default for every falsy field
  and the date part of the stored dates; the save guard; and the member
  list's remove controls and their handler.
*/
module ProjectSettings {
  import opened Base
  import opened Text
  import opened Entities
  import opened Forms

  datatype SettingsForm = SettingsForm(
    name: string,
    description: string,
    status: string,
    priority: string,
    startDate: string,
    endDate: string,
    progress: int)

  /** A string field that is missing or empty, hence falsy. */
  predicate Falsy(o: Option<string>) {
    o.None? || o.value == ""
  }

  /** `value || fallback` for a string field. */
  function OrElse(o: Option<string>, fallback: string): (r: string)
    ensures Falsy(o) ==> r == fallback
    ensures !Falsy(o) ==> r == o.value
  {
    if Falsy(o) then fallback else o.value
  }

  /** `date ? date.split("T")[0] : ""`: the stored text up to its first 'T'. */
  function DatePart(o: Option<string>): (r: string)
    ensures 'T' !in r
    ensures o.None? ==> r == ""
    ensures o.Some? ==> StartsWith(o.value, r) && (|r| < |o.value| ==> o.value[|r|] == 'T')
  {
    if Falsy(o) then "" else BeforeT(o.value)
  }

  /** The form as the tab opens. */
  function InitialForm(p: Project): (r: SettingsForm)
    ensures r.name == OrElse(p.name, "") && r.description == OrElse(p.description, "")
    ensures r.status == OrElse(p.status, "PLANNING") && r.priority == OrElse(p.priority, "MEDIUM")
    ensures r.startDate == DatePart(p.startDate) && r.endDate == DatePart(p.endDate)
    ensures r.progress == (if p.progress.None? then 0 else p.progress.value)
  {
    SettingsForm(
      OrElse(p.name, ""),
      OrElse(p.description, ""),
      OrElse(p.status, "PLANNING"),
      OrElse(p.priority, "MEDIUM"),
      DatePart(p.startDate),
      DatePart(p.endDate),
      p.progress.GetOr(0))
  }

  /** A project with every field missing or empty opens the form on the defaults. */
  lemma BareProjectDefaults(p: Project)
    requires Falsy(p.name) && Falsy(p.description) && Falsy(p.status) && Falsy(p.priority)
    requires p.startDate.None? && p.endDate.None? && p.progress.None?
    ensures InitialForm(p) == SettingsForm("", "", "PLANNING", "MEDIUM", "", "", 0)
  {
  }

  /** A stored timestamp opens as its date: everything before the first 'T'. */
  lemma StampOpensAsDate(date: string, time: string)
    requires date != "" && 'T' !in date
    ensures DatePart(Some(date + "T" + time)) == date
  {
    BeforeFirstT(date, time);
  }

  datatype ProjectUpdate = ProjectUpdate(projectId: Key, form: SettingsForm)

  /** `handleSave`: a blank name is refused; otherwise the whole form is sent for this project. */
  function SaveSettings(p: Project, f: SettingsForm): (r: Submit<ProjectUpdate>)
    ensures r.Invalid? <==> IsBlank(f.name)
    ensures r.Invalid? ==> r.message == "Project name is required"
    ensures r.Send? ==> r.payload == ProjectUpdate(p.oid, f)
  {
    if IsBlank(f.name) then Invalid("Project name is required") else Send(ProjectUpdate(p.oid, f))
  }

  /** Saving the form of a project with no name is refused until one is typed. */
  lemma UnnamedProjectCannotSave(p: Project)
    requires Falsy(p.name)
    ensures SaveSettings(p, InitialForm(p)).Invalid?
  {
  }

  /** What a member row shows at its right end. */
  datatype Control = RemoveButton(memberId: Option<Key>) | CannotRemove | NoControl

  /** Admins are marked "(Cannot remove)"; any other member except the creator gets the remove button. */
  function MemberControl(p: Project, m: Member): (r: Control)
    ensures r == CannotRemove <==> m.role == "ADMIN"
    ensures r.RemoveButton? <==> m.role != "ADMIN" && p.creatorId != m.user.oid
    ensures r.RemoveButton? ==> r.memberId == m.user.oid
  {
    if m.role == "ADMIN" then CannotRemove
    else if p.creatorId != m.user.oid then RemoveButton(m.user.oid)
    else NoControl
  }

  /** The creator's own row never offers removal; an admin's row never does either. */
  lemma CreatorNotRemovable(p: Project, m: Member)
    requires m.user.oid == p.creatorId || m.role == "ADMIN"
    ensures !MemberControl(p, m).RemoveButton?
  {
  }

  datatype MemberRemoval = InvalidId(message: string) | Cancelled | Request(projectId: Key, memberId: Key)

  /** `handleRemoveMember`: a falsy id is refused before anything else. */
  function RemoveMember(p: Project, memberId: Option<Key>, confirmed: bool): (r: MemberRemoval)
    ensures r.InvalidId? <==> memberId.None? || !Truthy(memberId.value)
    ensures r.InvalidId? ==> r.message == "Invalid member ID"
    ensures r.Request? <==> memberId.Some? && Truthy(memberId.value) && confirmed
    ensures r.Request? ==> r.projectId == p.oid && Some(r.memberId) == memberId
  {
    if memberId.None? || !Truthy(memberId.value) then InvalidId("Invalid member ID")
    else if !confirmed then Cancelled
    else Request(p.oid, memberId.value)
  }

  /**
    A member without an `_id` in a project whose creator is known shows the
    remove button, and pressing it is refused as an invalid id.
  */
  lemma ButtonWithoutId(p: Project, m: Member)
    requires m.role != "ADMIN" && m.user.oid.None? && p.creatorId.Some?
    ensures MemberControl(p, m) == RemoveButton(None)
    ensures RemoveMember(p, MemberControl(p, m).memberId, true) == InvalidId("Invalid member ID")
  {
  }
}
