/** The notification history page: add a notification after validating the
    form, delete one, and reschedule one by loading it back into the form.
    The audience is stored as text, built from the selected users' names and
    parsed back into user ids on reschedule. */
module Notifications {
  import opened Wrappers
  import opened Text
  import Records

  /** A user the audience select offers. */
  datatype DummyUser = DummyUser(id: int, name: string)

  const DummyUsers: seq<DummyUser> := [
    DummyUser(1, "Alice Johnson"),
    DummyUser(2, "Bob Smith"),
    DummyUser(3, "Charlie Davis"),
    DummyUser(4, "Diana Evans")
  ]

  /** A time picked in the date picker; the model does not look inside it. */
  datatype Moment = Moment(stamp: int)

  datatype Notification = Notification(
    id: int, title: string, description: string, time: Option<Moment>, audience: string)

  /** The modal's form: `audienceType` is "all" or "individual". */
  datatype NotifyForm = NotifyForm(
    title: string, description: string, time: Option<Moment>,
    audienceType: string, selectedUsers: seq<int>)

  /** Why `addNotification` stops without adding. */
  datatype AddError = MissingText | NoUserSelected

  const AllUsersText: string := "All Users"
  const Separator: string := ", "

  function NotificationId(n: Notification): int { n.id }

  /** `users.find(u => u.id === id)?.name`: the name of the first user with
      that id. */
  function FindName(users: seq<DummyUser>, id: int): (r: Option<string>)
    ensures r.Some? <==> exists u :: u in users && u.id == id
    ensures r.Some? ==> exists u :: u in users && u.id == id && u.name == r.value
  {
    if users == [] then None
    else if users[0].id == id then Some(users[0].name)
    else FindName(users[1..], id)
  }

  /** `users.find(u => u.name === name)?.id`: the id of the first user with
      that name. */
  function FindId(users: seq<DummyUser>, name: string): (r: Option<int>)
    ensures r.Some? <==> exists u :: u in users && u.name == name
    ensures r.Some? ==> exists u :: u in users && u.name == name && u.id == r.value
  {
    if users == [] then None
    else if users[0].name == name then Some(users[0].id)
    else FindId(users[1..], name)
  }

  /** `find` by id returns the FIRST user with the id: the name found belongs
      to a user with the id and no user before it has the id. */
  lemma {:induction false} FindNameFirst(users: seq<DummyUser>, id: int)
    ensures FindName(users, id).Some? ==>
      exists i :: 0 <= i < |users| && users[i].id == id && users[i].name == FindName(users, id).value &&
                  forall j :: 0 <= j < i ==> users[j].id != id
  {
    if users != [] && users[0].id != id && FindName(users, id).Some? {
      var tail := users[1..];
      FindNameFirst(tail, id);
      var i :| 0 <= i < |tail| && tail[i].id == id && tail[i].name == FindName(tail, id).value &&
               forall j :: 0 <= j < i ==> tail[j].id != id;
      forall j | 0 <= j < i + 1 ensures users[j].id != id {
        if j > 0 { assert users[j] == tail[j - 1]; }
      }
      assert users[i + 1] == tail[i];
    }
  }

  /** `find` by name returns the FIRST user with the name: the id found
      belongs to a user with the name and no user before it has the name. */
  lemma {:induction false} FindIdFirst(users: seq<DummyUser>, name: string)
    ensures FindId(users, name).Some? ==>
      exists i :: 0 <= i < |users| && users[i].name == name && users[i].id == FindId(users, name).value &&
                  forall j :: 0 <= j < i ==> users[j].name != name
  {
    if users != [] && users[0].name != name && FindId(users, name).Some? {
      var tail := users[1..];
      FindIdFirst(tail, name);
      var i :| 0 <= i < |tail| && tail[i].name == name && tail[i].id == FindId(tail, name).value &&
               forall j :: 0 <= j < i ==> tail[j].name != name;
      forall j | 0 <= j < i + 1 ensures users[j].name != name {
        if j > 0 { assert users[j] == tail[j - 1]; }
      }
      assert users[i + 1] == tail[i];
    }
  }

  /** With distinct names, looking up the name of an id and then the id of
      that name gives back the id. */
  lemma {:induction false} FindIdOfName(users: seq<DummyUser>, id: int)
    requires forall i, j :: 0 <= i < j < |users| ==> users[i].name != users[j].name
    requires exists u :: u in users && u.id == id
    ensures FindId(users, FindName(users, id).value) == Some(id)
  {
    if users[0].id != id {
      var tail := users[1..];
      assert exists u :: u in tail && u.id == id by {
        var u :| u in users && u.id == id;
        assert u != users[0];
      }
      FindIdOfName(tail, id);
      var n := FindName(tail, id).value;
      var u :| u in tail && u.id == id && u.name == n;
      var k :| 0 <= k < |tail| && tail[k] == u;
      assert users[k + 1] == u;
    }
  }

  /** The name an id contributes to the audience text: the user's name, or ""
      for an id no user has. */
  function NameOrEmpty(id: int): (r: string)
    ensures (exists u :: u in DummyUsers && u.id == id) ==>
              exists u :: u in DummyUsers && u.id == id && u.name == r
    ensures (forall u :: u in DummyUsers ==> u.id != id) ==> r == ""
  {
    match FindName(DummyUsers, id)
    case Some(name) => name
    case None => ""
  }

  /** The names the selected ids contribute, in selection order. */
  function AudienceNames(ids: seq<int>): (r: seq<string>)
    ensures |r| == |ids|
  {
    seq(|ids|, i requires 0 <= i < |ids| => NameOrEmpty(ids[i]))
  }

  /** The audience text of a notification added from `form`. */
  function AudienceText(form: NotifyForm): string
  {
    if form.audienceType == "all" then AllUsersText
    else Join(AudienceNames(form.selectedUsers), Separator)
  }

  /** `.filter(Boolean)` on ids or nulls: drops the nulls and the id 0. */
  function Truthy(xs: seq<Option<int>>): (r: seq<int>)
    ensures |r| <= |xs|
    ensures forall v :: v in r <==> v != 0 && Some(v) in xs
  {
    if xs == [] then []
    else if xs[0].Some? && xs[0].value != 0 then [xs[0].value] + Truthy(xs[1..])
    else Truthy(xs[1..])
  }

  /** `.filter(Boolean)` works element by element, so it keeps the order:
      filtering a concatenation is concatenating the filtered parts, and a
      single entry is kept exactly when it is a nonzero id. */
  lemma {:induction false} TruthyConcat(a: seq<Option<int>>, b: seq<Option<int>>)
    ensures Truthy(a + b) == Truthy(a) + Truthy(b)
    ensures Truthy([]) == [] && forall x :: Truthy([x]) == if x.Some? && x.value != 0 then [x.value] else []
    decreases |a|
  {
    if a != [] {
      var ab := a + b;
      assert ab[0] == a[0] && ab[1..] == a[1..] + b;
      TruthyConcat(a[1..], b);
      if a[0].Some? && a[0].value != 0 {
        calc {
          Truthy(ab);
          [a[0].value] + Truthy(a[1..] + b);
          [a[0].value] + (Truthy(a[1..]) + Truthy(b));
          ([a[0].value] + Truthy(a[1..])) + Truthy(b);
        }
      }
    } else {
      assert a + b == b;
    }
    forall x ensures Truthy([x]) == if x.Some? && x.value != 0 then [x.value] else [] {
      assert [x][1..] == [];
    }
  }

  /** The id each piece of an audience text names, or null. */
  function PieceIds(pieces: seq<string>): (r: seq<Option<int>>)
    ensures |r| == |pieces|
  {
    seq(|pieces|, i requires 0 <= i < |pieces| => FindId(DummyUsers, pieces[i]))
  }

  /** The ids `rescheduleNotification` reads back from an audience text. */
  function ParseAudience(audience: string): seq<int>
  {
    if audience == AllUsersText then [] else Truthy(PieceIds(Split(audience, Separator)))
  }

  /** The form `rescheduleNotification` loads from a notification. */
  function FormFromRecord(record: Notification): NotifyForm
  {
    NotifyForm(
      record.title, record.description, record.time,
      if record.audience == AllUsersText then "all" else "individual",
      ParseAudience(record.audience))
  }

  /** The user list behind the select: distinct nonzero ids, distinct names,
      no name with a comma, no name equal to the "All Users" text. */
  lemma DummyUsersFacts()
    ensures forall i, j :: 0 <= i < j < |DummyUsers| ==> DummyUsers[i].name != DummyUsers[j].name
    ensures forall u :: u in DummyUsers ==> u.id != 0 && ',' !in u.name && u.name != AllUsersText
  {
  }

  /** Truthy keeps a list of nonzero ids as it is. */
  lemma {:induction false} TruthyAllSome(xs: seq<Option<int>>, ids: seq<int>)
    requires |xs| == |ids|
    requires forall i :: 0 <= i < |ids| ==> xs[i] == Some(ids[i]) && ids[i] != 0
    ensures Truthy(xs) == ids
  {
    if xs != [] {
      TruthyAllSome(xs[1..], ids[1..]);
      assert [ids[0]] + ids[1..] == ids;
    }
  }

  /** The names of known users have no comma, are not the "All Users" text,
      and lead back to their ids. */
  lemma AudienceNamesFacts(ids: seq<int>)
    requires forall i :: 0 <= i < |ids| ==> exists u :: u in DummyUsers && u.id == ids[i]
    ensures forall i :: 0 <= i < |ids| ==>
              && ',' !in AudienceNames(ids)[i] && AudienceNames(ids)[i] != AllUsersText
              && FindId(DummyUsers, AudienceNames(ids)[i]) == Some(ids[i]) && ids[i] != 0
  {
    DummyUsersFacts();
    var names := AudienceNames(ids);
    forall i | 0 <= i < |ids|
      ensures ',' !in names[i] && names[i] != AllUsersText
      ensures FindId(DummyUsers, names[i]) == Some(ids[i]) && ids[i] != 0
    {
      var u :| u in DummyUsers && u.id == ids[i] && u.name == names[i];
      FindIdOfName(DummyUsers, ids[i]);
    }
  }

  /** Parsing the audience text built from ids of known users gives back the
      same ids in the same order. */
  lemma ParseRender(ids: seq<int>)
    requires forall i :: 0 <= i < |ids| ==> exists u :: u in DummyUsers && u.id == ids[i]
    ensures ParseAudience(Join(AudienceNames(ids), Separator)) == ids
  {
    ParseRenderAny(ids);
    assert forall i :: 0 <= i < |ids| ==> KnownUser(ids[i]);
    Records.KeepAllIff(ids, KnownUser);
  }

  /** On any audience text, parsing yields at most one id per piece, and
      only nonzero ids of users whose name is one of the pieces: pieces that
      name no user are dropped. The "All Users" text yields no ids. */
  lemma ParseAudienceSpec(audience: string)
    ensures audience == AllUsersText ==> ParseAudience(audience) == []
    ensures |ParseAudience(audience)| <= |Split(audience, Separator)|
    ensures forall v :: v in ParseAudience(audience) ==>
              v != 0 && exists u :: u in DummyUsers && u.id == v && u.name in Split(audience, Separator)
    ensures audience != AllUsersText ==>
              forall u :: u in DummyUsers && u.name in Split(audience, Separator) ==> u.id in ParseAudience(audience)
  {
    if audience != AllUsersText {
      ParsedIdsNamed(Split(audience, Separator));
      NamedIdsParsed(Split(audience, Separator));
    }
  }

  /** Every id read from the pieces is nonzero and belongs to a user named by
      a piece. */
  lemma ParsedIdsNamed(pieces: seq<string>)
    ensures forall v :: v in Truthy(PieceIds(pieces)) ==>
              v != 0 && exists u :: u in DummyUsers && u.id == v && u.name in pieces
  {
    forall v | v in Truthy(PieceIds(pieces))
      ensures v != 0 && exists u :: u in DummyUsers && u.id == v && u.name in pieces
    {
      var i :| 0 <= i < |pieces| && PieceIds(pieces)[i] == Some(v);
      var u :| u in DummyUsers && u.name == pieces[i] && u.id == v;
    }
  }

  /** Every user named by a piece has its id among the ids read from the
      pieces. */
  lemma NamedIdsParsed(pieces: seq<string>)
    ensures forall u :: u in DummyUsers && u.name in pieces ==> u.id in Truthy(PieceIds(pieces))
  {
    DummyUsersFacts();
    forall u | u in DummyUsers && u.name in pieces
      ensures u.id in Truthy(PieceIds(pieces))
    {
      FindIdOfMember(DummyUsers, u);
      var i :| 0 <= i < |pieces| && pieces[i] == u.name;
      assert PieceIds(pieces)[i] == Some(u.id);
    }
  }

  /** With distinct names, `find` by a user's name gives that user's id. */
  lemma {:induction false} FindIdOfMember(users: seq<DummyUser>, u: DummyUser)
    requires forall i, j :: 0 <= i < j < |users| ==> users[i].name != users[j].name
    requires u in users
    ensures FindId(users, u.name) == Some(u.id)
  {
    if users[0] != u {
      var k :| 0 <= k < |users| && users[k] == u;
      assert users[0].name != u.name;
      assert users[1..][k - 1] == u;
      FindIdOfMember(users[1..], u);
    }
  }

  /** The name one id renders as: a known id's name has no comma, is not the
      "All Users" text and leads back to the id; an unknown id renders as
      the empty name, which leads to nothing. */
  lemma RenderedNameFacts(id: int)
    ensures ',' !in NameOrEmpty(id) && NameOrEmpty(id) != AllUsersText
    ensures FindId(DummyUsers, NameOrEmpty(id)) == (if KnownUser(id) then Some(id) else None)
    ensures KnownUser(id) ==> id != 0
  {
    DummyUsersFacts();
    if KnownUser(id) {
      var u :| u in DummyUsers && u.id == id && u.name == NameOrEmpty(id);
      FindIdOfMember(DummyUsers, u);
    }
  }

  /** The id belongs to one of the users the select offers. */
  predicate KnownUser(id: int)
  {
    exists u :: u in DummyUsers && u.id == id
  }

  /** `.filter(Boolean)` over the lookups of rendered names keeps the known
      ids and drops the others, in order. */
  lemma {:induction false} TruthyKeepsKnown(xs: seq<Option<int>>, ids: seq<int>)
    requires |xs| == |ids|
    requires forall i :: 0 <= i < |ids| ==> xs[i] == (if KnownUser(ids[i]) then Some(ids[i]) else None)
    requires forall i :: 0 <= i < |ids| && KnownUser(ids[i]) ==> ids[i] != 0
    ensures Truthy(xs) == Records.Keep(ids, KnownUser)
  {
    if xs != [] {
      TruthyKeepsKnown(xs[1..], ids[1..]);
    }
  }

  /** Every rendered name is free of commas and is not the "All Users" text;
      a known id's name leads back to it and an unknown id's name to nothing. */
  lemma RenderedNamesFacts(ids: seq<int>)
    ensures forall i :: 0 <= i < |ids| ==> ',' !in AudienceNames(ids)[i] && AudienceNames(ids)[i] != AllUsersText
    ensures forall i :: 0 <= i < |ids| ==>
              PieceIds(AudienceNames(ids))[i] == (if KnownUser(ids[i]) then Some(ids[i]) else None)
    ensures forall i :: 0 <= i < |ids| && KnownUser(ids[i]) ==> ids[i] != 0
  {
    var names := AudienceNames(ids);
    forall i | 0 <= i < |ids|
      ensures ',' !in names[i] && names[i] != AllUsersText
      ensures FindId(DummyUsers, names[i]) == (if KnownUser(ids[i]) then Some(ids[i]) else None)
      ensures KnownUser(ids[i]) ==> ids[i] != 0
    {
      RenderedNameFacts(ids[i]);
    }
  }

  /** Parsing the audience text built from any ids gives back the ids of
      known users in their order; an unknown id renders as an empty name
      and is dropped. */
  lemma ParseRenderAny(ids: seq<int>)
    ensures ParseAudience(Join(AudienceNames(ids), Separator)) == Records.Keep(ids, KnownUser)
  {
    var names := AudienceNames(ids);
    var text := Join(names, Separator);
    if ids == [] {
      assert text == [] && text != AllUsersText;
      assert Split(text, Separator) == [[]];
      DummyUsersFacts();
      assert PieceIds([[]]) == [None];
      assert Truthy([None]) == Truthy([None][1..]);
    } else {
      RenderedNamesFacts(ids);
      if |ids| >= 2 {
        JoinHasSeparator(names, Separator);
        assert ',' !in AllUsersText;
      }
      assert text != AllUsersText;
      SplitJoin(names, Separator);
      TruthyKeepsKnown(PieceIds(names), ids);
    }
  }

  /** Rescheduling a notification added from a form loads back the same
      title, description and time, the same audience type, and, for an
      individual audience of known users, the same users in the same order
      (an "all" audience comes back with no users selected). */
  lemma RescheduleRestoresForm(form: NotifyForm, now: int)
    requires form.audienceType == "all" || form.audienceType == "individual"
    requires forall i :: 0 <= i < |form.selectedUsers| ==>
               exists u :: u in DummyUsers && u.id == form.selectedUsers[i]
    ensures FormFromRecord(NewNotification(form, now)) ==
            form.(selectedUsers := if form.audienceType == "all" then [] else form.selectedUsers)
  {
    if form.audienceType == "individual" {
      ParseRender(form.selectedUsers);
    }
  }

  /** The checks `addNotification` makes before adding. */
  function CheckForm(form: NotifyForm): Option<AddError>
  {
    if Trim(form.title) == [] || Trim(form.description) == [] then Some(MissingText)
    else if form.audienceType == "individual" && |form.selectedUsers| == 0 then Some(NoUserSelected)
    else None
  }

  /** A form is refused for missing text exactly when its title or its
      description is all white space, and for a missing audience exactly when
      it has text, is individual and selects nobody. */
  lemma CheckFormSpec(form: NotifyForm)
    ensures CheckForm(form) == Some(MissingText) <==>
              (forall i :: 0 <= i < |form.title| ==> IsJsSpace(form.title[i]))
              || (forall i :: 0 <= i < |form.description| ==> IsJsSpace(form.description[i]))
    ensures CheckForm(form) == Some(NoUserSelected) <==>
              CheckForm(form) != Some(MissingText)
              && form.audienceType == "individual" && form.selectedUsers == []
  {
    TrimSpec(form.title);
    TrimSpec(form.description);
  }

  /** The notification `addNotification` creates; `now` stands for `Date.now()`. */
  function NewNotification(form: NotifyForm, now: int): Notification
  {
    Notification(now, form.title, form.description, form.time, AudienceText(form))
  }

  /** One edit of the form, as `handleInputChange(field, value)` receives it. */
  datatype FormEdit =
    | SetTitle(title: string)
    | SetDescription(description: string)
    | SetTime(time: Option<Moment>)
    | SetAudienceType(audienceType: string)
    | SetSelectedUsers(selectedUsers: seq<int>)

  /** `{ ...prev, [field]: value }`: the edited field takes the new value and
      every other field keeps its value. */
  function ApplyEdit(form: NotifyForm, edit: FormEdit): (r: NotifyForm)
    ensures r.title == (if edit.SetTitle? then edit.title else form.title)
    ensures r.description == (if edit.SetDescription? then edit.description else form.description)
    ensures r.time == (if edit.SetTime? then edit.time else form.time)
    ensures r.audienceType == (if edit.SetAudienceType? then edit.audienceType else form.audienceType)
    ensures r.selectedUsers == (if edit.SetSelectedUsers? then edit.selectedUsers else form.selectedUsers)
  {
    match edit
    case SetTitle(t) => form.(title := t)
    case SetDescription(d) => form.(description := d)
    case SetTime(t) => form.(time := t)
    case SetAudienceType(a) => form.(audienceType := a)
    case SetSelectedUsers(u) => form.(selectedUsers := u)
  }

  /** The edit that sets the edited field to the value it has in `form`. */
  function SameValue(form: NotifyForm, edit: FormEdit): FormEdit
  {
    match edit
    case SetTitle(_) => SetTitle(form.title)
    case SetDescription(_) => SetDescription(form.description)
    case SetTime(_) => SetTime(form.time)
    case SetAudienceType(_) => SetAudienceType(form.audienceType)
    case SetSelectedUsers(_) => SetSelectedUsers(form.selectedUsers)
  }

  /** An edit that sets any field to the value it already has changes
      nothing, and repeating an edit is doing it once. */
  lemma ApplyEditIdempotent(form: NotifyForm, edit: FormEdit)
    ensures ApplyEdit(ApplyEdit(form, edit), edit) == ApplyEdit(form, edit)
    ensures ApplyEdit(form, SameValue(form, edit)) == form
  {
  }

  /** The empty form `openModal` installs. */
  const EmptyForm: NotifyForm := NotifyForm("", "", None, "all", [])

  /** The notification page's state: the list, the modal's form and whether
      the modal is shown. */
  class NotifyMessages {
    var notifications: seq<Notification>
    var formValues: NotifyForm
    var modalVisible: bool

    /** The page's opening state; `tomorrow` stands for `moment().add(1, "day")`. */
    constructor (tomorrow: Moment)
      ensures notifications == [
        Notification(1, "System Update", "System will be updated at midnight.", Some(tomorrow), "All Users"),
        Notification(2, "Special Offer", "Exclusive sale for selected users.", None, "Bob Smith")]
      ensures formValues == EmptyForm && !modalVisible
    {
      notifications := [
        Notification(1, "System Update", "System will be updated at midnight.", Some(tomorrow), "All Users"),
        Notification(2, "Special Offer", "Exclusive sale for selected users.", None, "Bob Smith")];
      formValues := EmptyForm;
      modalVisible := false;
    }

    /** `openModal`: an empty form in a visible modal. */
    method OpenModal()
      modifies this`formValues, this`modalVisible
      ensures formValues == EmptyForm && modalVisible
    {
      formValues := EmptyForm;
      modalVisible := true;
    }

    /** The modal's cancel handler: hides the modal and keeps the form. */
    method CloseModal()
      modifies this`modalVisible
      ensures !modalVisible
    {
      modalVisible := false;
    }

    /** `handleInputChange`: one field of the form takes a new value. */
    method HandleInputChange(edit: FormEdit)
      modifies this`formValues
      ensures formValues == ApplyEdit(old(formValues), edit)
    {
      formValues := ApplyEdit(formValues, edit);
    }

    /** Validates the form; on success puts the new notification first and
      hides the modal, otherwise changes nothing and reports why. */
    method AddNotification(now: int) returns (error: Option<AddError>)
      modifies this`notifications, this`modalVisible
      ensures error == CheckForm(formValues)
      ensures error.Some? ==> notifications == old(notifications) && modalVisible == old(modalVisible)
      ensures error.None? ==>
                notifications == [NewNotification(formValues, now)] + old(notifications) && !modalVisible
    {
      error := CheckForm(formValues);
      if error.None? {
        notifications := [NewNotification(formValues, now)] + notifications;
        modalVisible := false;
      }
    }

    /** Removes the notifications with id `id`. */
    method DeleteNotification(id: int)
      modifies this`notifications
      ensures notifications == Records.Without(old(notifications), NotificationId, id)
    {
      notifications := Records.Without(notifications, NotificationId, id);
    }

    /** Loads `record` into the form, shows the modal, and removes the
      notifications with the record's id. */
    method RescheduleNotification(record: Notification)
      modifies this
      ensures formValues == FormFromRecord(record) && modalVisible
      ensures notifications == Records.Without(old(notifications), NotificationId, record.id)
    {
      formValues := FormFromRecord(record);
      modalVisible := true;
      DeleteNotification(record.id);
    }
  }
}
