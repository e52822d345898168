/** The alphabet of the receive queue: what a worker tells a requestor. */
module Messages {

  datatype Body =
    | Build
    | Cancel
    | Log(text: string)
    | Status(success: bool)
    | Final

  /** `build` is the Jenkins build number of the sender, `project` its Jenkins job. */
  datatype Message = Message(project: string, build: int, body: Body)

  datatype RequestKind = PullRequest | Branch | Tag | Unknown(text: string)

  datatype BuildRequest = BuildRequest(
    repoURL: string,
    kind: RequestKind,
    target: string,
    setupScript: string,
    runScript: string,
    rcvIdent: string,
    runScriptURL: string,
    mainBranch: string,
    project: string)

  /** The messages of `history` that carry `project`, in order. */
  function Own(project: string, history: seq<Message>): (own: seq<Message>)
  {
    if history == [] then
      []
    else
      var front, m := Own(project, history[..|history| - 1]), history[|history| - 1];
      if m.project == project then front + [m] else front
  }

  /** Exactly these, each as often as in the history. */
  lemma {:induction false} OwnMembers(project: string, history: seq<Message>, m: Message)
    ensures multiset(Own(project, history))[m] == if m.project == project then multiset(history)[m] else 0
  {
    if history != [] {
      var front, last := history[..|history| - 1], history[|history| - 1];
      assert history == front + [last];
      OwnMembers(project, front, m);
    }
  }

  /** The messages of `history` sent by build `b` of `project`, in order. */
  function SentBy(project: string, b: int, history: seq<Message>): (sent: seq<Message>)
  {
    if history == [] then
      []
    else
      var front, m := SentBy(project, b, history[..|history| - 1]), history[|history| - 1];
      if m.project == project && m.build == b then front + [m] else front
  }

  lemma SentByOne(project: string, b: int, history: seq<Message>, m: Message)
    ensures var sent := SentBy(project, b, history);
            SentBy(project, b, history + [m]) == if m.project == project && m.build == b then sent + [m] else sent
  {
    assert (history + [m])[..|history|] == history;
  }

  lemma {:induction false} SentByMembers(project: string, b: int, history: seq<Message>)
    ensures forall m :: m in SentBy(project, b, history) <==> m in history && m.project == project && m.build == b
  {
    if history != [] {
      var front, m := history[..|history| - 1], history[|history| - 1];
      assert history == front + [m];
      SentByMembers(project, b, front);
    }
  }
}
