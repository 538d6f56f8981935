/**
 * The project dialog's invite list: the list of member emails it keeps,
 * the text box for the next address, and the form value the list is copied
 * into. The email format check is passed in as a function.
 */
module ProjectModal {
  import opened Common

  /**
   * `addMember`'s new list: the trimmed input appended at the end when it is
   * non-empty, not listed yet and a valid email; otherwise the list as it was.
   */
  function Added(members: seq<string>, input: string, isEmail: string -> bool): (r: seq<string>)
    ensures r == members || r == members + [Trim(input)]
    ensures r != members <==> Trim(input) != "" && Trim(input) !in members && isEmail(Trim(input))
  {
    var email := Trim(input);
    if email != "" && email !in members && isEmail(email) then members + [email] else members
  }

  /** `removeMember`'s new list: every entry equal to `email` dropped. */
  function Removed(members: seq<string>, email: string): (r: seq<string>)
    ensures forall x :: x in r <==> x in members && x != email
    ensures |r| <= |members|
  {
    if members == [] then []
    else if members[0] == email then Removed(members[1..], email)
    else [members[0]] + Removed(members[1..], email)
  }

  /** Adding keeps the list free of duplicates. */
  lemma AddedNoDuplicates(members: seq<string>, input: string, isEmail: string -> bool)
    requires NoDuplicates(members)
    ensures NoDuplicates(Added(members, input, isEmail))
  {
  }

  /** Removing keeps the other entries in their order. */
  lemma {:induction false} RemovedIsSubsequence(members: seq<string>, email: string)
    ensures IsSubsequence(Removed(members, email), members)
  {
    if members != [] {
      RemovedIsSubsequence(members[1..], email);
      var rest := Removed(members[1..], email);
      if members[0] == email {
        SubsequenceOfTail(rest, members);
      } else {
        assert Removed(members, email) == [members[0]] + rest;
        assert ([members[0]] + rest)[1..] == rest;
      }
    }
  }

  /** Removing keeps the list free of duplicates. */
  lemma {:induction false} RemovedNoDuplicates(members: seq<string>, email: string)
    requires NoDuplicates(members)
    ensures NoDuplicates(Removed(members, email))
  {
    if members != [] {
      assert NoDuplicates(members[1..]);
      RemovedNoDuplicates(members[1..], email);
      if members[0] != email {
        var rest := Removed(members[1..], email);
        assert members[0] !in members[1..];
        assert members[0] !in rest;
        assert Removed(members, email) == [members[0]] + rest;
      }
    }
  }

  /** Removing an address that is not listed changes nothing. */
  lemma {:induction false} RemovedAbsent(members: seq<string>, email: string)
    requires email !in members
    ensures Removed(members, email) == members
  {
    if members != [] {
      RemovedAbsent(members[1..], email);
      assert [members[0]] + members[1..] == members;
    }
  }

  /** Removing from a concatenation removes from each part. */
  lemma {:induction false} RemovedConcat(a: seq<string>, b: seq<string>, email: string)
    ensures Removed(a + b, email) == Removed(a, email) + Removed(b, email)
  {
    if a != [] {
      RemovedConcat(a[1..], b, email);
      assert (a + b)[1..] == a[1..] + b;
    } else {
      assert a + b == b;
    }
  }

  /** Removing the address just added gives back the list as it was before. */
  lemma AddThenRemove(members: seq<string>, input: string, isEmail: string -> bool)
    requires Added(members, input, isEmail) != members
    ensures Removed(Added(members, input, isEmail), Trim(input)) == members
  {
    var email := Trim(input);
    RemovedConcat(members, [email], email);
    RemovedAbsent(members, email);
    assert Removed([email], email) == [];
  }

  /** The fields of a project that the dialog edits. */
  datatype ProjectInfo = ProjectInfo(
    id: string,
    name: string,
    description: Option<string>,
    color: Option<string>,
    members: Option<seq<string>>)

  /** The form's values. */
  datatype ProjectForm = ProjectForm(name: string, description: string, color: string, members: seq<string>)

  /** The colour a new project starts with: the first of the palette. */
  const DefaultColor: string := "bg-blue-500"

  /** The form's values for a new project. */
  const NewProjectForm: ProjectForm := ProjectForm("", "", DefaultColor, [])

  /** The form's values for editing `info`; an absent description or colour becomes empty. */
  function EditForm(info: ProjectInfo): (f: ProjectForm)
    ensures f.name == info.name
    ensures f.members == (if info.members.Some? then info.members.value else [])
  {
    ProjectForm(info.name,
                if info.description.Some? then info.description.value else "",
                if info.color.Some? then info.color.value else "",
                if info.members.Some? then info.members.value else [])
  }

  class ProjectDialog {
    /** The invite list shown as badges. */
    var members: seq<string>
    /** The text box for the next address. */
    var memberInput: string
    /** The form's values, including its copy of the invite list. */
    var form: ProjectForm

    /** The form's `members` value is always the invite list. */
    predicate InSync()
      reads this
    {
      form.members == members
    }

    constructor ()
      ensures InSync()
      ensures members == [] && memberInput == "" && form == NewProjectForm
    {
      members, memberInput, form := [], "", NewProjectForm;
    }

    /** `addMember`: the text box is cleared only when an address was added. */
    method AddMember(isEmail: string -> bool)
      requires InSync()
      modifies this
      ensures InSync()
      ensures members == Added(old(members), old(memberInput), isEmail)
      ensures memberInput == (if members != old(members) then "" else old(memberInput))
      ensures form == old(form).(members := members)
      ensures NoDuplicates(old(members)) ==> NoDuplicates(members)
    {
      var email := Trim(memberInput);
      if email != "" && email !in members {
        if isEmail(email) {
          var updated := members + [email];
          members := updated;
          memberInput := "";
          form := form.(members := updated);
        }
      }
      if NoDuplicates(old(members)) {
        AddedNoDuplicates(old(members), old(memberInput), isEmail);
      }
    }

    /** `removeMember`: the address is dropped from the list and from the form. */
    method RemoveMember(email: string)
      requires InSync()
      modifies this
      ensures InSync()
      ensures members == Removed(old(members), email) && IsSubsequence(members, old(members))
      ensures memberInput == old(memberInput)
      ensures form == old(form).(members := members)
      ensures NoDuplicates(old(members)) ==> NoDuplicates(members)
    {
      var updated := Removed(members, email);
      members := updated;
      form := form.(members := updated);
      RemovedIsSubsequence(old(members), email);
      if NoDuplicates(old(members)) {
        RemovedNoDuplicates(old(members), email);
      }
    }

    /**
     * The open effect: on opening, the form and the list are reset, to the
     * edited project's values or to a new project's, and the text box is cleared.
     */
    method OnOpen(open: bool, info: Option<ProjectInfo>)
      modifies this
      ensures open ==> InSync() && memberInput == ""
      ensures open && info.Some? ==> form == EditForm(info.value)
                                     && members == (if info.value.members.Some? then info.value.members.value else [])
      ensures open && info.None? ==> form == NewProjectForm && members == []
      ensures !open ==> members == old(members) && memberInput == old(memberInput) && form == old(form)
    {
      if open {
        if info.Some? {
          form := EditForm(info.value);
          members := if info.value.members.Some? then info.value.members.value else [];
        } else {
          form := NewProjectForm;
          members := [];
        }
        memberInput := "";
      }
    }
  }
}
