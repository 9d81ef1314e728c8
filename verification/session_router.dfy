/**
 * The three frames `/`, `/vote` and `/results`, the buttons each one offers,
 * where a button press leads, and what each frame's handler does with the
 * `votes` table before it renders.
 */
module SessionRouter {
  import opened Wrappers
  import opened BallotStore
  import opened TallyAggregator
  import opened Avatar

  datatype Screen = Start | Vote | Results

  /** A frame button: its text, the route it goes to (`action`) and the value it sends (`value`). */
  datatype Intent = Intent(text: string, action: Option<Screen>, value: Option<string>)

  /** The buttons under each frame, in order. */
  function Intents(s: Screen): (bs: seq<Intent>)
    ensures |bs| == match s case Start => 1 case Vote => 4 case Results => 2
    ensures forall i :: 0 <= i < |bs| ==> (bs[i].action.Some? <==> bs[i].value.None?)
    ensures forall i :: 0 <= i < |bs| && bs[i].value.Some? ==>
      s == Vote && bs[i].value.value in {"for", "against", "abstain"}
    ensures forall i :: 0 <= i < |bs| && bs[i].action.Some? ==> bs[i].action.value != Start
    ensures s == Vote ==>
      forall v :: v in {"for", "against", "abstain"} ==> exists i :: 0 <= i < |bs| && bs[i].value == Some(v)
  {
    match s
    case Start => [Intent("⇧ Lets Get Started!", Some(Vote), None)]
    case Vote =>
      var bs := [
        Intent("▲ For", None, Some("for")),
        Intent("▲ Against", None, Some("against")),
        Intent("▲ Abstain", None, Some("abstain")),
        Intent("◉ Result", Some(Results), None)
      ];
      assert bs[0].value == Some("for") && bs[1].value == Some("against") && bs[2].value == Some("abstain");
      bs
    case Results => [
      Intent("⏏︎ Back", Some(Vote), None),
      Intent("⌁ Refresh", Some(Results), None)
    ]
  }

  /** An inbound frame request: the route it reaches and the `buttonValue` it carries. */
  datatype Request = Request(screen: Screen, buttonValue: Option<string>)

  /**
   * The `frameData` of a request, present when a button was pressed and absent
   * on a plain load of the frame; its `fid` may itself be missing.
   */
  datatype FrameData = FrameData(fid: Option<string>)

  /**
   * Pressing button `i` under frame `s`: the request goes to the button's
   * `action` route, or back to the same frame when the button has none, and
   * carries the button's `value`.
   */
  function Press(s: Screen, i: nat): Request
    requires i < |Intents(s)|
  {
    var b := Intents(s)[i];
    Request(b.action.GetOr(s), b.value)
  }

  /** JavaScript truthiness of `buttonValue`: present and not the empty string. */
  predicate Truthy(v: Option<string>)
  {
    v.Some? && v.value != ""
  }

  /**
   * What the profile lookup of the `/vote` handler yields: the fetch, the JSON
   * decoding or the `users` field failed (an exception before any write); the
   * `users` array was empty, or its first user has no string `pfp_url` (no
   * exception until the avatar is rendered, after the write); or the first
   * user's picture url and display name.
   */
  datatype Lookup = LookupError | NoPicture | Profile(pfpUrl: string, displayName: string)

  /**
   * The exceptions a handler can end in: destructuring absent `frameData`, the
   * profile lookup, or reading the picture url while rendering.
   */
  datatype Failure = NoFrameData | LookupFailed | RenderFailed

  /** What a frame hands to the renderer. */
  datatype View =
    | StartView(intents: seq<Intent>)
    | VoteView(avatarSrc: string, displayName: string, intents: seq<Intent>)
    | ResultsView(results: map<string, nat>, intents: seq<Intent>)

  /** A call of `recordOrUpdateVote(voteType, userId)`. */
  datatype Write = Write(voteType: string, userId: string)

  /**
   * The store write a request causes: only the `/vote` handler writes, only
   * when neither the destructuring of `frameData` nor the lookup threw first
   * and `buttonValue` is truthy, and it writes the value as sent under `fid`,
   * or `''` when the frame data has none.
   */
  function StoreWrite(req: Request, frame: Option<FrameData>, lookup: Lookup): (w: Option<Write>)
    ensures w.None? <==>
      || req.screen != Vote
      || frame.None?
      || lookup == LookupError
      || req.buttonValue.None?
      || req.buttonValue == Some("")
    ensures w.Some? ==>
      && w.value.voteType == req.buttonValue.value
      && w.value.voteType != ""
      && w.value.userId == frame.value.fid.GetOr("")
  {
    if req.screen == Vote && frame.Some? && lookup != LookupError && Truthy(req.buttonValue)
    then Some(Write(req.buttonValue.value, frame.value.fid.GetOr("")))
    else None
  }

  /** The table after an optional write. */
  function Apply(rows: seq<Row>, w: Option<Write>): seq<Row>
  {
    match w
    case None => rows
    case Some(Write(voteType, userId)) => Recorded(rows, voteType, userId)
  }

  /** Where button `i` under frame `s` leads. */
  function Next(s: Screen, i: nat): (next: Screen)
    requires i < |Intents(s)|
    ensures s == Start ==> next == Vote
    ensures s == Vote ==> (next == Vote <==> i < 3) && (next == Results <==> i == 3)
    ensures s == Results ==> (next == Vote <==> i == 0) && (next == Results <==> i == 1)
  {
    Press(s, i).screen
  }

  /**
   * Among the frames' own buttons, exactly the three value buttons of `/vote`
   * write, and they write one of `for`, `against`, `abstain` under the
   * requester's `fid`.
   */
  lemma PressWrites(s: Screen, i: nat, fid: Option<string>, lookup: Lookup)
    requires i < |Intents(s)|
    requires lookup != LookupError
    ensures StoreWrite(Press(s, i), Some(FrameData(fid)), lookup).Some? <==> s == Vote && i < 3
    ensures StoreWrite(Press(s, i), Some(FrameData(fid)), lookup).Some? ==>
      StoreWrite(Press(s, i), Some(FrameData(fid)), lookup).value.voteType in {"for", "against", "abstain"}
      && StoreWrite(Press(s, i), Some(FrameData(fid)), lookup).value.userId == fid.GetOr("")
  {
  }

  /**
   * The `/vote` handler does not validate the value: any non-empty
   * `buttonValue` that reaches it is recorded as the user's vote type.
   */
  lemma AnyValueIsRecorded(rows: seq<Row>, v: string, fid: Option<string>, lookup: Lookup)
    requires v != "" && lookup != LookupError
    ensures var after := Apply(rows, StoreWrite(Request(Vote, Some(v)), Some(FrameData(fid)), lookup));
      forall i :: 0 <= i < |after| && after[i].userId == fid.GetOr("") ==> after[i].voteType == v
    ensures v in VoteTypes(Apply(rows, StoreWrite(Request(Vote, Some(v)), Some(FrameData(fid)), lookup)))
  {
  }

  /**
   * The handler of a frame: the `/` frame only renders; the `/vote` frame reads
   * `fid` from the frame data, looks up the profile, records the vote when
   * `buttonValue` is truthy, and renders the avatar and the name; the
   * `/results` frame runs the grouped count.
   */
  method Serve(table: VoteTable, req: Request, frame: Option<FrameData>, lookup: Lookup)
    returns (r: Result<View, Failure>)
    modifies table
    ensures table.rows == Apply(old(table.rows), StoreWrite(req, frame, lookup))
    ensures AtMostOnePerUser(old(table.rows)) ==> AtMostOnePerUser(table.rows)
    ensures req.screen == Start ==> r == Ok(StartView(Intents(Start)))
    ensures req.screen == Vote && frame.None? ==> r == Err(NoFrameData)
    ensures req.screen == Vote && frame.Some? ==> match lookup
      case LookupError => r == Err(LookupFailed)
      case NoPicture => r == Err(RenderFailed)
      case Profile(pfpUrl, name) => r == Ok(VoteView(AvatarSrc(pfpUrl), name, Intents(Vote)))
    ensures req.screen == Results ==> r == Ok(ResultsView(ShownTally(table.rows), Intents(Results)))
  {
    match req.screen
    case Start =>
      r := Ok(StartView(Intents(Start)));
    case Vote =>
      if frame.None? {
        return Err(NoFrameData);
      }
      if lookup == LookupError {
        return Err(LookupFailed);
      }
      if Truthy(req.buttonValue) {
        table.RecordOrUpdateVote(req.buttonValue.value, frame.value.fid.GetOr(""));
      }
      match lookup {
        case NoPicture =>
          r := Err(RenderFailed);
        case Profile(pfpUrl, name) =>
          r := Ok(VoteView(AvatarSrc(pfpUrl), name, Intents(Vote)));
      }
    case Results =>
      var results := QueryResults(table);
      r := Ok(ResultsView(results, Intents(Results)));
  }

  /** One handled request with the inputs the handler takes from outside. */
  datatype Interaction = Interaction(req: Request, frame: Option<FrameData>, lookup: Lookup)

  /** The table after a sequence of interactions, handled one after another. */
  function Replay(rows: seq<Row>, log: seq<Interaction>): seq<Row>
    decreases |log|
  {
    if |log| == 0 then rows
    else
      var last := log[|log| - 1];
      Apply(Replay(rows, log[..|log| - 1]), StoreWrite(last.req, last.frame, last.lookup))
  }

  /**
   * Whatever requests arrive, one after another, from an empty table: no user
   * ever has two rows, and the tally's counts add up to the number of voters.
   */
  lemma {:induction false} ReplayKeepsOneVotePerUser(log: seq<Interaction>)
    ensures AtMostOnePerUser(Replay([], log))
    ensures MapSum(Tally(Replay([], log))) == |Voters(Replay([], log))|
  {
    if |log| > 0 {
      ReplayKeepsOneVotePerUser(log[..|log| - 1]);
      var last := log[|log| - 1];
      var w := StoreWrite(last.req, last.frame, last.lookup);
      if w.Some? {
        RecordedKeepsOnePerUser(Replay([], log[..|log| - 1]), w.value.voteType, w.value.userId);
      }
    }
    TallyCountsVoters(Replay([], log));
  }

  lemma ReplaySnoc(rows: seq<Row>, log: seq<Interaction>, x: Interaction)
    ensures Replay(rows, log + [x]) == Apply(Replay(rows, log), StoreWrite(x.req, x.frame, x.lookup))
  {
  }

  lemma VoteButtons()
    ensures Press(Vote, 0) == Request(Vote, Some("for"))
    ensures Press(Vote, 1) == Request(Vote, Some("against"))
  {
  }

  lemma FirstVote(userId: string, voteType: string)
    ensures Recorded([], voteType, userId) == [Row(userId, voteType)]
  {
    assert !HasVoted([], userId);
  }

  lemma SingleRowRevote(userId: string, first: string, second: string)
    ensures Recorded([Row(userId, first)], second, userId) == [Row(userId, second)]
  {
  }

  lemma SingleRowTally(userId: string, voteType: string)
    ensures Tally([Row(userId, voteType)]) == map[voteType := 1]
  {
    var rows := [Row(userId, voteType)];
    assert rows[..0] == [];
    assert VoteTypes(rows) == {voteType};
    assert CountType(rows, voteType) == 1;
    var m := Tally(rows);
    assert m.Keys == {voteType} && m[voteType] == 1;
  }

  /**
   * User `u1` presses "For", then "Against", on `/vote`: one row remains, and
   * the tally lists `against` alone, with no zero entry for `for` or `abstain`.
   */
  lemma VoteChangeScenario(profile: Lookup)
    requires profile != LookupError
    ensures var log := [Interaction(Press(Vote, 0), Some(FrameData(Some("u1"))), profile),
                        Interaction(Press(Vote, 1), Some(FrameData(Some("u1"))), profile)];
      Replay([], log) == [Row("u1", "against")] && Tally(Replay([], log)) == map["against" := 1]
  {
    VoteButtons();
    var frame := Some(FrameData(Some("u1")));
    var first := Interaction(Request(Vote, Some("for")), frame, profile);
    var second := Interaction(Request(Vote, Some("against")), frame, profile);
    assert Replay([], [first]) == [Row("u1", "for")] by {
      ReplaySnoc([], [], first);
      assert [] + [first] == [first];
      FirstVote("u1", "for");
    }
    assert Replay([], [first, second]) == [Row("u1", "against")] by {
      ReplaySnoc([], [first], second);
      assert [first] + [second] == [first, second];
      SingleRowRevote("u1", "for", "against");
    }
    SingleRowTally("u1", "against");
  }
}
