/** The local state of the App component of src/App.jsx and the handlers
    that change it. Each handler runs to completion in one step: the reply of
    its one remote call, if it makes one, is a parameter, and the ghost field
    `sent` records the call. */
module AppComponent {
  import opened Text
  import opened Projection
  import opened Remote

  datatype Option<T> = None | Some(value: T)

  class App {
    var tasks: seq<Task>           // the list last loaded from the store
    var title: string              // the new-task input
    var msg: string                // the message shown above everything else
    var loading: bool              // a load is in progress
    var query: string              // the search input
    var filter: FilterMode         // the selected filter button
    var editingId: Option<TaskId>  // the task whose title is being edited, if any
    var editingTitle: string       // the edit draft

    /** Every call made to the store or the identity provider, oldest first. */
    ghost var sent: seq<Request>

    /** Without a task in edit there is no draft text, and every title ever
        written to the store was trimmed and non-empty. */
    ghost predicate Valid()
      reads this
    {
      (editingId.None? ==> editingTitle == "") &&
      (forall i :: 0 <= i < |sent| ==> WritesCleanTitle(sent[i]))
    }

    /** The component's initial state. */
    constructor ()
      ensures Valid()
      ensures tasks == [] && title == "" && msg == "" && !loading
      ensures query == "" && filter == All && editingId == None && editingTitle == ""
      ensures sent == []
    {
      tasks, title, msg, loading := [], "", "", false;
      query, filter, editingId, editingTitle := "", All, None, "";
      sent := [];
    }

    /** fetchTasks: load the list, newest first. A successful reply replaces
        the list wholesale; a failed one keeps the last list and shows the
        error. Either way the load ends with `loading` false. */
    method FetchTasks(reply: Response<Rows>)
      requires Valid()
      modifies this
      ensures Valid()
      ensures sent == old(sent) + [ListTasks]
      ensures !loading
      ensures reply.Ok? ==> tasks == RowsOrEmpty(reply.data) && msg == ""
      ensures reply.Err? ==> tasks == old(tasks) && msg == reply.message
      ensures title == old(title) && query == old(query) && filter == old(filter)
      ensures editingId == old(editingId) && editingTitle == old(editingTitle)
    {
      loading := true;
      msg := "";
      sent := sent + [ListTasks];
      match reply {
        case Err(message) => msg := message;
        case Ok(data) => tasks := RowsOrEmpty(data);
      }
      loading := false;
    }

    /** signOut: end the session, then clear the list, the search, the
        filter and the edit draft. The provider's reply is not inspected. */
    method SignOut()
      requires Valid()
      modifies this
      ensures Valid()
      ensures sent == old(sent) + [EndSession]
      ensures tasks == [] && query == "" && filter == All
      ensures editingId == None && editingTitle == ""
      ensures title == old(title) && msg == old(msg) && loading == old(loading)
      ensures StatsOf(tasks) == Stats(0, 0, 0, 0) && VisibleTasks(tasks, query, filter) == []
    {
      sent := sent + [EndSession];
      tasks := [];
      query := "";
      filter := All;
      editingId := None;
      editingTitle := "";
    }

    /** addTask: insert the trimmed new-task text for the signed-in user. A
        blank text is rejected before any call. The input is cleared only
        when the insert succeeds; the list is left to the next load. */
    method AddTask(userId: UserId, reply: Response<()>)
      requires Valid()
      modifies this
      ensures Valid()
      ensures Blank(old(title)) ==> sent == old(sent) && title == old(title) && msg == old(msg)
      ensures !Blank(old(title)) ==>
        sent == old(sent) + [InsertTask(Trim(old(title)), userId)] &&
        (reply.Ok? ==> title == "" && msg == "") &&
        (reply.Err? ==> title == old(title) && msg == reply.message)
      ensures tasks == old(tasks) && loading == old(loading)
      ensures query == old(query) && filter == old(filter)
      ensures editingId == old(editingId) && editingTitle == old(editingTitle)
    {
      var next := Trim(title);
      assert next == [] <==> Blank(title);
      if next == [] {
        return;
      }
      assert WritesCleanTitle(InsertTask(next, userId));
      msg := "";
      sent := sent + [InsertTask(next, userId)];
      assert Valid();
      match reply {
        case Err(message) => msg := message;
        case Ok(_) => title := "";
      }
    }

    /** toggleDone: ask the store to flip the task's done flag, as the
        caller's copy of the task has it. Nothing local changes but the
        message. */
    method ToggleDone(task: Task, reply: Response<()>)
      requires Valid()
      modifies this
      ensures Valid()
      ensures sent == old(sent) + [SetDone(task.id, !task.isDone)]
      ensures msg == if reply.Err? then reply.message else ""
      ensures tasks == old(tasks) && title == old(title) && loading == old(loading)
      ensures query == old(query) && filter == old(filter)
      ensures editingId == old(editingId) && editingTitle == old(editingTitle)
    {
      msg := "";
      sent := sent + [SetDone(task.id, !task.isDone)];
      if reply.Err? {
        msg := reply.message;
      }
    }

    /** deleteTask: ask the store to delete the row. Nothing local changes
        but the message; in particular an edit draft of that task stays. */
    method DeleteTask(id: TaskId, reply: Response<()>)
      requires Valid()
      modifies this
      ensures Valid()
      ensures sent == old(sent) + [Remove(id)]
      ensures msg == if reply.Err? then reply.message else ""
      ensures tasks == old(tasks) && title == old(title) && loading == old(loading)
      ensures query == old(query) && filter == old(filter)
      ensures editingId == old(editingId) && editingTitle == old(editingTitle)
    {
      msg := "";
      sent := sent + [Remove(id)];
      if reply.Err? {
        msg := reply.message;
      }
    }

    /** startEdit: the single draft slot now holds this task and its title,
        whatever it held before. */
    method StartEdit(task: Task)
      requires Valid()
      modifies this
      ensures Valid()
      ensures editingId == Some(task.id) && editingTitle == task.title
      ensures tasks == old(tasks) && title == old(title) && msg == old(msg) && loading == old(loading)
      ensures query == old(query) && filter == old(filter) && sent == old(sent)
    {
      editingId := Some(task.id);
      editingTitle := task.title;
    }

    /** cancelEdit: empty the draft slot. */
    method CancelEdit()
      requires Valid()
      modifies this
      ensures Valid()
      ensures editingId == None && editingTitle == ""
      ensures tasks == old(tasks) && title == old(title) && msg == old(msg) && loading == old(loading)
      ensures query == old(query) && filter == old(filter) && sent == old(sent)
    {
      editingId := None;
      editingTitle := "";
    }

    /** saveEdit: write the trimmed draft as the title of task `id`. A blank
        draft is rejected before any call and changes nothing. A failed
        write keeps the draft so the typed text is not lost; a successful
        one empties the slot. */
    method SaveEdit(id: TaskId, reply: Response<()>)
      requires Valid()
      modifies this
      ensures Valid()
      ensures Blank(old(editingTitle)) ==>
        sent == old(sent) && msg == old(msg) &&
        editingId == old(editingId) && editingTitle == old(editingTitle)
      ensures !Blank(old(editingTitle)) ==>
        sent == old(sent) + [Rename(id, Trim(old(editingTitle)))] &&
        (reply.Ok? ==> msg == "" && editingId == None && editingTitle == "") &&
        (reply.Err? ==> msg == reply.message &&
                        editingId == old(editingId) && editingTitle == old(editingTitle))
      ensures old(editingId).None? ==> sent == old(sent)
      ensures tasks == old(tasks) && title == old(title) && loading == old(loading)
      ensures query == old(query) && filter == old(filter)
    {
      var next := Trim(editingTitle);
      assert next == [] <==> Blank(editingTitle);
      if next == [] {
        return;
      }
      assert editingId.Some?;
      assert WritesCleanTitle(Rename(id, next));
      msg := "";
      sent := sent + [Rename(id, next)];
      assert Valid();
      match reply {
        case Err(message) => msg := message;
        case Ok(_) => CancelEdit();
      }
    }

    /** Typing into the new-task input. */
    method SetTitle(text: string)
      requires Valid()
      modifies this
      ensures Valid()
      ensures title == text
      ensures tasks == old(tasks) && msg == old(msg) && loading == old(loading)
      ensures query == old(query) && filter == old(filter) && sent == old(sent)
      ensures editingId == old(editingId) && editingTitle == old(editingTitle)
    {
      title := text;
    }

    /** Typing into the search input. */
    method SetQuery(text: string)
      requires Valid()
      modifies this
      ensures Valid()
      ensures query == text
      ensures tasks == old(tasks) && title == old(title) && msg == old(msg) && loading == old(loading)
      ensures filter == old(filter) && sent == old(sent)
      ensures editingId == old(editingId) && editingTitle == old(editingTitle)
    {
      query := text;
    }

    /** Pressing one of the three filter buttons. */
    method SetFilter(mode: FilterMode)
      requires Valid()
      modifies this
      ensures Valid()
      ensures filter == mode
      ensures tasks == old(tasks) && title == old(title) && msg == old(msg) && loading == old(loading)
      ensures query == old(query) && sent == old(sent)
      ensures editingId == old(editingId) && editingTitle == old(editingTitle)
    {
      filter := mode;
    }

    /** Typing into the title input of the task in edit; that input is only
        shown while a task is in edit. */
    method SetEditingTitle(text: string)
      requires Valid() && editingId.Some?
      modifies this
      ensures Valid()
      ensures editingTitle == text
      ensures tasks == old(tasks) && title == old(title) && msg == old(msg) && loading == old(loading)
      ensures query == old(query) && filter == old(filter) && sent == old(sent)
      ensures editingId == old(editingId)
    {
      editingTitle := text;
    }
  }

  /** Blank submissions never reach the store: a blank new task and a blank
      edit draft are both turned away, and the draft survives. */
  method BlankSubmissionsAreRejected(reply: Response<()>)
  {
    var app := new App();
    app.SetTitle("   ");
    app.AddTask("user-1", reply);
    assert app.sent == [] && app.tasks == [] && app.title == "   ";
    app.StartEdit(Task(1, "buy milk", false));
    app.SetEditingTitle("  ");
    app.SaveEdit(1, reply);
    assert app.sent == [] && app.editingId == Some(1) && app.editingTitle == "  ";
  }
}
