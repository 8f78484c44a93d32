/** The skills the reasoner may call: opening the daily dashboard and creating a
    Todoist task, and the registry naming them. The browser, the app launcher and the
    Todoist client are outside the model: what each call did arrives as an input. */
module Skills {
  import opened Wrappers
  import opened Strings

  // ---------------------------------------------------------------- open_daily_stack

  const CalendarUrl := "https://calendar.google.com"
  const TodoistUrl := "https://todoist.com/app/today"
  const GeminiUrl := "https://gemini.google.com"
  const NotionWebUrl := "https://www.notion.so"
  const DashboardText := "I've opened your daily dashboard."

  /** The return value of `open_daily_stack` and the URLs it opened, in order. */
  datatype DailyStack = DailyStack(message: string, pages: seq<string>)

  /** `open_daily_stack`; `notionLaunch` is what starting the Notion desktop app did.
      The three fixed pages are always opened; the Notion web page is added exactly
      when the app could not be started; the reply never changes. */
  function OpenDailyStack(notionLaunch: Outcome<()>): (r: DailyStack)
    ensures r.message == DashboardText
    ensures |r.pages| == (if notionLaunch.Raised? then 4 else 3)
    ensures r.pages[..3] == [CalendarUrl, TodoistUrl, GeminiUrl]
    ensures NotionWebUrl in r.pages <==> notionLaunch.Raised?
  {
    var urls := [CalendarUrl, TodoistUrl, GeminiUrl];
    var pages := if notionLaunch.Raised? then urls + [NotionWebUrl] else urls;
    assert pages[..3] == urls;
    DailyStack(DashboardText, pages)
  }

  // ---------------------------------------------------------------- add_task

  const DefaultDue := "today"
  const MissingKeyText := "Todoist API key is missing."

  /** One `api.add_task(content=…, due_string=…)` request. */
  datatype TaskRequest = TaskRequest(content: string, dueString: string)

  /** The return value of `add_task` and the requests it sent to Todoist. */
  datatype TaskReply = TaskReply(message: string, requests: seq<TaskRequest>)

  /** `add_task`; `create` is the Todoist client, returning or raising per request.
      Without a key nothing is sent; otherwise exactly the one request, and its
      failure is reported, not raised. */
  function AddTask(todoistKey: Option<string>, content: string, dueString: string,
                   create: TaskRequest -> Outcome<()>): (r: TaskReply)
    ensures !Truthy(todoistKey) ==> r == TaskReply(MissingKeyText, [])
    ensures Truthy(todoistKey) ==> r.requests == [TaskRequest(content, dueString)]
    ensures Truthy(todoistKey) && create(TaskRequest(content, dueString)).Returned? ==>
      r.message == "Task created: " + content + " due " + dueString
    ensures Truthy(todoistKey) && create(TaskRequest(content, dueString)).Raised? ==>
      r.message == "Error creating task: " + create(TaskRequest(content, dueString)).message
  {
    if !Truthy(todoistKey) then TaskReply(MissingKeyText, [])
    else
      var request := TaskRequest(content, dueString);
      match create(request)
      case Returned(_) => TaskReply("Task created: " + content + " due " + dueString, [request])
      case Raised(e) => TaskReply("Error creating task: " + e, [request])
  }

  /** `add_task` called without a due string: the task is due "today". */
  function AddTaskDueToday(todoistKey: Option<string>, content: string,
                           create: TaskRequest -> Outcome<()>): (r: TaskReply)
    ensures Truthy(todoistKey) ==> r.requests == [TaskRequest(content, DefaultDue)]
    ensures !Truthy(todoistKey) ==> r.message == MissingKeyText
  {
    AddTask(todoistKey, content, DefaultDue, create)
  }

  /** A created task is confirmed with its content and due phrase; a missing key is
      reported with the word "missing". */
  lemma AddTaskReplyMentions(todoistKey: Option<string>, content: string, dueString: string,
                             create: TaskRequest -> Outcome<()>)
    ensures var r := AddTask(todoistKey, content, dueString, create);
      && (Truthy(todoistKey) && create(TaskRequest(content, dueString)).Returned? ==>
            Contains(r.message, content) && Contains(r.message, dueString))
      && (!Truthy(todoistKey) ==> Contains(Lower(r.message), "missing"))
  {
    var r := AddTask(todoistKey, content, dueString, create);
    if Truthy(todoistKey) && create(TaskRequest(content, dueString)).Returned? {
      var m := r.message;
      var pre := "Task created: ";
      assert m[|pre|..|pre| + |content|] == content;
      ContainsAt(m, content, |pre|);
      var at := |pre| + |content| + |" due "|;
      assert m[at..at + |dueString|] == dueString;
      ContainsAt(m, dueString, at);
    }
    if !Truthy(todoistKey) {
      var l := Lower(MissingKeyText);
      assert l[19..26] == "missing" by {
        forall k | 19 <= k < 26 ensures l[k] == MissingKeyText[k] {
          assert LowerChar(MissingKeyText[k]) == MissingKeyText[k];
        }
        assert MissingKeyText[19..26] == "missing";
      }
      ContainsAt(l, "missing", 19);
    }
  }

  // ---------------------------------------------------------------- registry

  datatype Skill = OpenDailyStackSkill | AddTaskSkill

  /** The name a skill is registered under. */
  function SkillName(s: Skill): string {
    match s
    case OpenDailyStackSkill => "open_daily_stack"
    case AddTaskSkill => "add_task"
  }

  /** `available_functions`. */
  const Registry: map<string, Skill> := map["open_daily_stack" := OpenDailyStackSkill, "add_task" := AddTaskSkill]

  /** Looking a name up in the registry: found exactly for the two registered names,
      and a found skill is registered under the name asked for. */
  function Lookup(name: string): (r: Option<Skill>)
    ensures r.Some? <==> name == "open_daily_stack" || name == "add_task"
    ensures r.Some? ==> SkillName(r.value) == name
  {
    if name in Registry then Some(Registry[name]) else None
  }

  /** Every skill is found under its own name, and only the two names are registered. */
  lemma RegistryRoundTrip(s: Skill)
    ensures Lookup(SkillName(s)) == Some(s)
    ensures Registry.Keys == {SkillName(OpenDailyStackSkill), SkillName(AddTaskSkill)}
  {
  }
}
