/** The new-team form: `submit` parses the members (comma separated) and the initial tasks (one
    per line) and hands the team on unless the name is empty. */
module TeamForm {
  import opened Strings

  /** What `onCreate` receives. */
  datatype NewTeam = NewTeam(name: string, members: seq<string>, tasks: seq<string>)

  /** What a submission leads to: the "Nombre requerido" alert, or one call of `onCreate`. */
  datatype TeamSubmit = NameRequired | Created(team: NewTeam)

  const NAME_REQUIRED: string := "Nombre requerido"

  /** `submit`. */
  function Submit(name: string, membersText: string, tasksText: string): (r: TeamSubmit)
    ensures r.NameRequired? <==> name == ""
    ensures r.Created? ==> r.team.name == name
  {
    var members := ParseList(membersText, ',');
    var tasks := ParseList(tasksText, '\n');
    if name == "" then NameRequired
    else Created(NewTeam(name, members, tasks))
  }

  /** The members and tasks handed on are clean: non-empty, trimmed, and free of the separator
      they were split on. */
  lemma SubmittedItemsClean(name: string, membersText: string, tasksText: string)
    requires name != ""
    ensures CleanItems(Submit(name, membersText, tasksText).team.members, ',')
    ensures CleanItems(Submit(name, membersText, tasksText).team.tasks, '\n')
  {
    ParseListClean(membersText, ',');
    ParseListClean(tasksText, '\n');
  }

  /** Typing clean names separated by ", " gives exactly those members. */
  lemma MembersRoundTrip(name: string, members: seq<string>, tasksText: string)
    requires name != "" && CleanItems(members, ',')
    ensures Submit(name, Join(members, ", "), tasksText).team.members == members
  {
    ParseListJoin(members, ',');
  }

  /** The name is passed on as typed: a name made only of white space, which trimming would
      empty, is not empty and creates a team named by those spaces. */
  lemma NameNotTrimmed(name: string, membersText: string, tasksText: string)
    requires name != "" && AllSpace(name)
    ensures Trim(name) == ""
    ensures Submit(name, membersText, tasksText) == Created(NewTeam(name, ParseList(membersText, ','), ParseList(tasksText, '\n')))
  {
    TrimEmptyIffBlank(name);
  }
}
