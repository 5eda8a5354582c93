/**
 * The keyword-driven question builder for the support form.  For a known
 * user it reads the user's last 50 reconciled history entries, looks at the
 * user-sent ones among the last 10, and turns service names and trouble
 * words found there, and the user's open cases, into contextual questions;
 * otherwise, or when nothing was found, it offers fixed defaults.
 */
module QuestionGeneration {
  import opened Wrappers
  import opened JsStrings
  import opened Protocol
  import opened History
  import opened Auth

  const HISTORY_READ: int := 50
  const ANALYSED_TAIL: int := 10

  const PREVIOUS_QUESTION: string := "Based on your previous conversations, how can we help you today?"
  const ISSUE_QUESTION: string := "Is this related to the issue you mentioned earlier?"
  const FOLLOW_UP: string := "Can you provide more details about your issue?"
  const CHAT_DEFAULTS: seq<string> := [
    "How can we help you today?",
    "What service or feature are you having issues with?",
    "Can you describe the problem in more detail?"]
  const OTHER_DEFAULTS: seq<string> := ["What can we help you with?"]

  /** The question naming the services found, listed as `Array.from(set).join(', ')`. */
  function ServicesQuestion(labels: seq<string>): string {
    "I see you've been working with " + Join(labels, ", ") + ". What specific issue are you experiencing?"
  }

  function CasesQuestion(n: nat): string {
    "I notice you have " + NatToString(n) + " open case(s). Is this related to any of them?"
  }

  /** `Set.add` on an insertion-ordered set. */
  function AddLabel(labels: seq<string>, name: string): (r: seq<string>)
    ensures name in r && forall l :: l in labels ==> l in r
    ensures forall l :: l in r ==> l in labels || l == name
  {
    if name in labels then labels else labels + [name]
  }

  /** The labels one lower-cased message adds, checked in the order ec2, s3, lambda, rds, dynamodb. */
  function AddServices(labels: seq<string>, content: string): seq<string> {
    var a := if Contains(content, "ec2") then AddLabel(labels, "EC2") else labels;
    var b := if Contains(content, "s3") then AddLabel(a, "S3") else a;
    var c := if Contains(content, "lambda") then AddLabel(b, "Lambda") else b;
    var d := if Contains(content, "rds") then AddLabel(c, "RDS") else c;
    if Contains(content, "dynamodb") then AddLabel(d, "DynamoDB") else d
  }

  /** Whether a lower-cased message names one of the five services. */
  predicate NamesService(content: string) {
    Contains(content, "ec2") || Contains(content, "s3") || Contains(content, "lambda")
    || Contains(content, "rds") || Contains(content, "dynamodb")
  }

  predicate MentionsIssue(content: string) {
    Contains(content, "error") || Contains(content, "issue") || Contains(content, "problem")
  }

  /** The service labels found in `msgs`, in order of first detection. */
  function DetectedServices(msgs: seq<Message>): seq<string>
    decreases |msgs|
  {
    if |msgs| == 0 then []
    else
      var labels := DetectedServices(msgs[..|msgs| - 1]);
      var content := ToLower(msgs[|msgs| - 1].content);
      if NamesService(content) then AddServices(labels, content) else labels
  }

  /** The contents (as sent, not lower-cased) of the messages mentioning trouble. */
  function IssueMentions(msgs: seq<Message>): seq<string>
    decreases |msgs|
  {
    if |msgs| == 0 then []
    else IssueMentions(msgs[..|msgs| - 1])
         + (if MentionsIssue(ToLower(msgs[|msgs| - 1].content)) then [msgs[|msgs| - 1].content] else [])
  }

  /** `filter(m => m.sender === 'user')`. */
  function UserMessages(msgs: seq<Message>): (r: seq<Message>)
    ensures |r| <= |msgs|
    ensures forall i :: 0 <= i < |r| ==> r[i].sender == "user" && r[i] in msgs
    decreases |msgs|
  {
    if |msgs| == 0 then []
    else UserMessages(msgs[..|msgs| - 1]) + (if msgs[|msgs| - 1].sender == "user" then [msgs[|msgs| - 1]] else [])
  }

  /** `userEmail` as stored on each open case row; `None` when the row has no such property. */
  function CountOwned(caseEmails: seq<Option<string>>, userEmail: string): nat {
    if |caseEmails| == 0 then 0
    else (if caseEmails[0] == Some(userEmail) then 1 else 0) + CountOwned(caseEmails[1..], userEmail)
  }

  /**
   * The contextual questions for a known user: one about services or, failing
   * that, about previous conversations when the user wrote anything; one about
   * the issue; one about open cases.  A failed case read adds nothing and
   * keeps what came before it.
   */
  function Contextual(userEmail: string, history: seq<Message>, openCases: Settled<seq<Option<string>>>): (q: seq<string>)
    ensures |q| <= 3
  {
    var users := UserMessages(TakeLast(history, ANALYSED_TAIL));
    ServicesPart(DetectedServices(users), users) + IssuePart(IssueMentions(users)) + CasesPart(userEmail, openCases)
  }

  /** The question about services found, or else about the user's previous messages, if any. */
  function ServicesPart(services: seq<string>, users: seq<Message>): seq<string> {
    if |services| > 0 then [ServicesQuestion(services)] else if |users| > 0 then [PREVIOUS_QUESTION] else []
  }

  /** The question about an issue mentioned earlier, if any. */
  function IssuePart(issues: seq<string>): seq<string> {
    if |issues| > 0 then [ISSUE_QUESTION] else []
  }

  /** The question about the user's open cases, if the read succeeded and found some. */
  function CasesPart(userEmail: string, openCases: Settled<seq<Option<string>>>): seq<string> {
    var n := if openCases.Fulfilled? then CountOwned(openCases.value, userEmail) else 0;
    if n > 0 then [CasesQuestion(n)] else []
  }

  /**
   * `generateContextualQuestions`, with the two history reads and the case
   * read as parameters: the contextual questions and a follow-up, or the
   * defaults when there are none.
   */
  function Questions(contactMethod: string, userEmail: Option<string>, dd: Settled<seq<Message>>, pg: Settled<seq<Message>>,
                     openCases: Settled<seq<Option<string>>>): (q: seq<string>)
    ensures 1 <= |q| <= 4
  {
    var ctx := if Truthy(userEmail) then Contextual(userEmail.value, Reconcile(dd, pg, HISTORY_READ), openCases) else [];
    Completed(contactMethod, ctx)
  }

  /** The defaults for the contact method when there are no contextual questions, or else those and a follow-up. */
  function Completed(contactMethod: string, ctx: seq<string>): (q: seq<string>)
    ensures |q| == if |ctx| == 0 then (if contactMethod == "chat" then 3 else 1) else |ctx| + 1
  {
    if |ctx| == 0 then (if contactMethod == "chat" then CHAT_DEFAULTS else OTHER_DEFAULTS)
    else ctx + [FOLLOW_UP]
  }

  /** The `forEach` over the analysed messages: service labels by first detection, and trouble mentions. */
  method AnalyseMessages(userMessages: seq<Message>) returns (mentionedServices: seq<string>, mentionedIssues: seq<string>)
    ensures mentionedServices == DetectedServices(userMessages)
    ensures mentionedIssues == IssueMentions(userMessages)
  {
    mentionedServices, mentionedIssues := [], [];
    for i := 0 to |userMessages|
      invariant mentionedServices == DetectedServices(userMessages[..i])
      invariant mentionedIssues == IssueMentions(userMessages[..i])
    {
      assert userMessages[..i + 1][..i] == userMessages[..i];
      var content := ToLower(userMessages[i].content);
      if NamesService(content) {
        mentionedServices := AddServices(mentionedServices, content);
      }
      if MentionsIssue(content) {
        mentionedIssues := mentionedIssues + [userMessages[i].content];
      }
    }
    assert userMessages[..|userMessages|] == userMessages;
  }

  /** The `try` block for a known user, on the history read: the contextual questions, in push order. */
  method ContextualQuestions(userEmail: string, history: seq<Message>, openCases: Settled<seq<Option<string>>>)
    returns (questions: seq<string>)
    ensures questions == Contextual(userEmail, history, openCases)
  {
    questions := [];
    var userMessages := UserMessages(TakeLast(history, ANALYSED_TAIL));
    var mentionedServices, mentionedIssues := AnalyseMessages(userMessages);
    if |mentionedServices| > 0 {
      questions := questions + [ServicesQuestion(mentionedServices)];
    } else if |userMessages| > 0 {
      questions := questions + [PREVIOUS_QUESTION];
    }
    assert questions == ServicesPart(mentionedServices, userMessages);
    if |mentionedIssues| > 0 {
      questions := questions + [ISSUE_QUESTION];
    }
    assert questions == ServicesPart(mentionedServices, userMessages) + IssuePart(mentionedIssues);
    if openCases.Fulfilled? {
      var n := CountOwned(openCases.value, userEmail);
      if n > 0 {
        questions := questions + [CasesQuestion(n)];
      }
    }
  }

  /**
   * `generateContextualQuestions` as written: the contextual questions for a
   * known user, then either the defaults or the follow-up.
   */
  method GenerateContextualQuestions(contactMethod: string, userEmail: Option<string>,
                                     dd: Settled<seq<Message>>, pg: Settled<seq<Message>>,
                                     openCases: Settled<seq<Option<string>>>)
    returns (questions: seq<string>)
    ensures questions == Questions(contactMethod, userEmail, dd, pg, openCases)
  {
    var ctx := [];
    if Truthy(userEmail) {
      var history := GetHistoryForSession(dd, pg, HISTORY_READ);
      ctx := ContextualQuestions(userEmail.value, history, openCases);
    }
    questions := CompleteQuestions(contactMethod, ctx);
  }

  /** The end of `generateContextualQuestions`: pushes the defaults when nothing was found, or else the follow-up. */
  method CompleteQuestions(contactMethod: string, ctx: seq<string>) returns (questions: seq<string>)
    ensures questions == Completed(contactMethod, ctx)
  {
    questions := ctx;
    if |questions| == 0 {
      if contactMethod == "chat" {
        questions := questions + [CHAT_DEFAULTS[0]];
        questions := questions + [CHAT_DEFAULTS[1]];
        questions := questions + [CHAT_DEFAULTS[2]];
        assert questions == CHAT_DEFAULTS;
      } else {
        questions := questions + [OTHER_DEFAULTS[0]];
        assert questions == OTHER_DEFAULTS;
      }
    } else {
      questions := questions + [FOLLOW_UP];
    }
  }

  // ---------------------------------------------------------------------------
  // Properties

  /** Without a (truthy) user email nothing is read: three chat defaults, or one otherwise. */
  lemma AnonymousGetsDefaults(contactMethod: string, userEmail: Option<string>, dd: Settled<seq<Message>>,
                              pg: Settled<seq<Message>>, openCases: Settled<seq<Option<string>>>)
    requires !Truthy(userEmail)
    ensures Questions(contactMethod, userEmail, dd, pg, openCases) == (if contactMethod == "chat" then CHAT_DEFAULTS else OTHER_DEFAULTS)
  {
  }

  /** Contextual questions always end with the follow-up, and the defaults never contain it. */
  lemma FollowUpIffContextual(contactMethod: string, userEmail: Option<string>, dd: Settled<seq<Message>>,
                              pg: Settled<seq<Message>>, openCases: Settled<seq<Option<string>>>)
    ensures var q := Questions(contactMethod, userEmail, dd, pg, openCases);
            q[|q| - 1] == FOLLOW_UP <==> q != CHAT_DEFAULTS && q != OTHER_DEFAULTS
  {
    var q := Questions(contactMethod, userEmail, dd, pg, openCases);
    assert CHAT_DEFAULTS[2] != FOLLOW_UP;
    assert OTHER_DEFAULTS[0] != FOLLOW_UP;
  }

  /** Labels are only ever added: every label found in a prefix stays found. */
  lemma {:induction false} DetectedServicesGrow(msgs: seq<Message>, k: nat)
    requires k <= |msgs|
    ensures forall l :: l in DetectedServices(msgs[..k]) ==> l in DetectedServices(msgs)
    decreases |msgs| - k
  {
    if k < |msgs| {
      var longer := msgs[..k + 1];
      assert longer[..k] == msgs[..k];
      assert forall l :: l in DetectedServices(msgs[..k]) ==> l in DetectedServices(longer) by {
        var content := ToLower(longer[k].content);
        if NamesService(content) {
          AddServicesKeeps(DetectedServices(msgs[..k]), content);
        }
      }
      DetectedServicesGrow(msgs, k + 1);
      assert msgs[..k + 1][..k + 1] == msgs[..k + 1];
    } else {
      assert msgs[..k] == msgs;
    }
  }

  lemma AddServicesKeeps(labels: seq<string>, content: string)
    ensures forall l :: l in labels ==> l in AddServices(labels, content)
  {
  }

  /** A message naming a service (after lower-casing) yields at least one label. */
  lemma AddServicesFinds(labels: seq<string>, content: string)
    requires NamesService(content)
    ensures |AddServices(labels, content)| > 0
  {
  }

  /**
   * The previous-conversations question appears exactly when the analysed
   * window holds user messages and none of them names a service.
   */
  lemma {:induction false} NoLabelsIffNoServiceNamed(msgs: seq<Message>)
    ensures |DetectedServices(msgs)| == 0 <==> forall i :: 0 <= i < |msgs| ==> !NamesService(ToLower(msgs[i].content))
    decreases |msgs|
  {
    if |msgs| > 0 {
      var init := msgs[..|msgs| - 1];
      NoLabelsIffNoServiceNamed(init);
      var content := ToLower(msgs[|msgs| - 1].content);
      if NamesService(content) {
        AddServicesFinds(DetectedServices(init), content);
      } else {
        assert forall i :: 0 <= i < |init| ==> init[i] == msgs[i];
      }
      if |DetectedServices(msgs)| == 0 {
        assert !NamesService(content) by {
          if NamesService(content) {
            AddServicesFinds(DetectedServices(init), content);
          }
        }
        assert forall i :: 0 <= i < |init| ==> init[i] == msgs[i];
      }
    }
  }

  /** "Words" contains "rds": plain substring matching reports RDS for it. */
  lemma WordsMentionsRds()
    ensures NamesService(ToLower("Words")) && "RDS" in AddServices([], ToLower("Words"))
  {
    assert ToLower("Words") == "words";
    assert "words"[1..4] == "ord";
    assert "words"[2..5] == "rds";
    ContainsAt("words", "rds", 2);
  }

  /** The issue question is due exactly when some analysed message, lower-cased, mentions trouble. */
  lemma {:induction false} IssueMentionsIff(msgs: seq<Message>)
    ensures |IssueMentions(msgs)| > 0 <==> exists i :: 0 <= i < |msgs| && MentionsIssue(ToLower(msgs[i].content))
    decreases |msgs|
  {
    if |msgs| > 0 {
      var init := msgs[..|msgs| - 1];
      IssueMentionsIff(init);
      if exists i :: 0 <= i < |init| && MentionsIssue(ToLower(init[i].content)) {
        var i :| 0 <= i < |init| && MentionsIssue(ToLower(init[i].content));
        assert msgs[i] == init[i];
      }
      if exists i :: 0 <= i < |msgs| && MentionsIssue(ToLower(msgs[i].content)) {
        var i :| 0 <= i < |msgs| && MentionsIssue(ToLower(msgs[i].content));
        if i < |init| {
          assert init[i] == msgs[i];
        }
      }
    }
  }

  /**
   * A failed case read loses only the open-cases question: the questions
   * pushed before it are the same as with a successful read.
   */
  lemma CaseReadFailureKeepsEarlier(userEmail: string, history: seq<Message>, rows: seq<Option<string>>)
    ensures var n := CountOwned(rows, userEmail);
            Contextual(userEmail, history, Settled.Fulfilled(rows))
            == Contextual(userEmail, history, Settled.Rejected) + (if n > 0 then [CasesQuestion(n)] else [])
  {
  }
}
