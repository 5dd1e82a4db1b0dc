/**
 How stored rows become the messages of a prompt: an orphaned user row is answered by a placeholder, and an
 assistant row without visible text is skipped.
 */
module HistoryPairs {
  import opened Wrappers

  datatype Row = User(text: string) | Assistant(text: string)

  datatype Message = UserMessage(text: string) | AssistantMessage(text: string)

  const PLACEHOLDER := "Previous request failed before the assistant produced a response."

  /** A reasoning-only assistant row. */
  predicate Hidden(row: Row) {
    row.Assistant? && row.text == ""
  }

  function Pairs(rows: seq<Row>): seq<Message> {
    if rows == [] then []
    else
      var row, rest := rows[0], Pairs(rows[1..]);
      if Hidden(row) then rest
      else if row.Assistant? then [AssistantMessage(row.text)] + rest
      else if |rows| == 1 || rows[1].User? then [UserMessage(row.text), AssistantMessage(PLACEHOLDER)] + rest
      else [UserMessage(row.text)] + rest
  }

  /** What one row contributes. */
  function Shown(rows: seq<Row>, i: nat): seq<Message>
    requires i < |rows|
  {
    if Hidden(rows[i]) then []
    else if rows[i].Assistant? then [AssistantMessage(rows[i].text)]
    else if i + 1 == |rows| || rows[i + 1].User? then [UserMessage(rows[i].text), AssistantMessage(PLACEHOLDER)]
    else [UserMessage(rows[i].text)]
  }

  lemma ShownFirst(rows: seq<Row>, i: nat)
    requires i < |rows|
    ensures Pairs(rows[i..]) == Shown(rows, i) + Pairs(rows[i + 1..])
  {
    assert rows[i..][1..] == rows[i + 1..];
  }

  /** What the rows before `n` contribute. */
  function ShownBefore(rows: seq<Row>, n: nat): seq<Message>
    requires n <= |rows|
  {
    if n == 0 then [] else ShownBefore(rows, n - 1) + Shown(rows, n - 1)
  }

  lemma {:induction false} PairsSplit(rows: seq<Row>, n: nat)
    requires n <= |rows|
    ensures Pairs(rows) == ShownBefore(rows, n) + Pairs(rows[n..])
  {
    if n == 0 {
      assert rows[0..] == rows;
    } else {
      PairsSplit(rows, n - 1);
      ShownFirst(rows, n - 1);
      Regroup(ShownBefore(rows, n - 1), Shown(rows, n - 1), Pairs(rows[n..]));
    }
  }

  lemma Regroup(a: seq<Message>, b: seq<Message>, c: seq<Message>)
    ensures a + (b + c) == a + b + c
  {
  }

  method NormalizeHistoryMessagePairs(records: seq<Row>) returns (result: seq<Message>)
    ensures result == Pairs(records)
  {
    result := [];
    PairsSplit(records, |records|);
    for i := 0 to |records|
      invariant result == ShownBefore(records, i)
    {
      var cur := records[i];
      if Hidden(cur) {
        continue;
      }
      result := result + [if cur.User? then UserMessage(cur.text) else AssistantMessage(cur.text)];
      if cur.User? && (i + 1 == |records| || records[i + 1].User?) {
        result := result + [AssistantMessage(PLACEHOLDER)];
      }
    }
  }

  // ---------------------------------------------------------------- do users and assistants alternate?

  /** Two rows that follow each other once hidden rows are left out. */
  ghost predicate Neighbours(rows: seq<Row>, i: nat, j: nat) {
    i < j < |rows| && !Hidden(rows[i]) && !Hidden(rows[j]) && forall k :: i < k < j ==> Hidden(rows[k])
  }

  /** A user row whose next visible row is a user's too, with at least one hidden row between. */
  ghost predicate Stranded(rows: seq<Row>, i: nat, j: nat) {
    Neighbours(rows, i, j) && rows[i].User? && rows[j].User? && i + 1 < j
  }

  /** Two assistant rows with text, and no row between them but hidden ones. */
  ghost predicate Doubled(rows: seq<Row>, i: nat, j: nat) {
    Neighbours(rows, i, j) && rows[i].Assistant? && rows[j].Assistant?
  }

  ghost predicate Clash(rows: seq<Row>, i: nat, j: nat, user: bool) {
    if user then Stranded(rows, i, j) else Doubled(rows, i, j)
  }

  /** Two neighbouring messages of the same role. */
  ghost predicate Meet(messages: seq<Message>, i: nat, user: bool) {
    i + 1 < |messages| && messages[i].UserMessage? == messages[i + 1].UserMessage? == user
  }

  /** Strict alternation. */
  ghost predicate Alternates(messages: seq<Message>) {
    forall i: nat, user :: !Meet(messages, i, user)
  }

  /** The first visible row. */
  function FirstVisible(rows: seq<Row>): (j: Option<nat>)
    ensures j.None? <==> forall k :: 0 <= k < |rows| ==> Hidden(rows[k])
    ensures j.Some? ==> j.value < |rows| && !Hidden(rows[j.value]) && forall k :: 0 <= k < j.value ==> Hidden(rows[k])
  {
    if rows == [] then None
    else if !Hidden(rows[0]) then Some(0)
    else match FirstVisible(rows[1..])
      case None => None
      case Some(j) => Some(j + 1)
  }

  /** The prompt begins with the role of the first visible row, and is empty when there is none. */
  lemma {:induction false} FirstShown(rows: seq<Row>)
    ensures Pairs(rows) == [] <==> FirstVisible(rows).None?
    ensures Pairs(rows) != [] ==> (Pairs(rows)[0].UserMessage? <==> rows[FirstVisible(rows).value].User?)
  {
    if rows != [] { FirstShown(rows[1..]); }
  }

  /** Only the first visible row behind a row can be its neighbour. */
  lemma NeighbourOfFirst(rows: seq<Row>, j: nat)
    requires rows != [] && !Hidden(rows[0])
    ensures Neighbours(rows, 0, j) <==> j > 0 && FirstVisible(rows[1..]) == Some(j - 1)
  {
    assert forall k :: 0 < k < |rows| ==> rows[k] == rows[1..][k - 1];
    var first := FirstVisible(rows[1..]);
    if Neighbours(rows, 0, j) {
      assert !Hidden(rows[1..][j - 1]);
      assert forall k :: 0 <= k < j - 1 ==> Hidden(rows[1..][k]);
    }
  }

  /** Messages of one role meet behind the first visible row exactly when its neighbour clashes with it. */
  lemma ClashAtFront(rows: seq<Row>, user: bool)
    requires rows != [] && !Hidden(rows[0])
    ensures var messages := Pairs(rows); var n := |messages| - |Pairs(rows[1..])|;
      (n == 1 || (n == 2 && !Meet(messages, 0, user)))
      && (Meet(messages, n - 1, user) <==> exists j: nat :: Clash(rows, 0, j, user))
  {
    MeetAtFront(rows, user);
    FirstShown(rows[1..]);
    ClashWithFirst(rows, user);
  }

  lemma MeetAtFront(rows: seq<Row>, user: bool)
    requires rows != [] && !Hidden(rows[0])
    ensures var messages, rest, shown := Pairs(rows), Pairs(rows[1..]), Shown(rows, 0);
      var n := |messages| - |rest|;
      && n == |shown| && (n == 1 || (n == 2 && !Meet(messages, 0, user)))
      && (Meet(messages, n - 1, user) <==>
            rest != [] && shown[n - 1].UserMessage? == rest[0].UserMessage? == user)
  {
    var messages, rest, shown := Pairs(rows), Pairs(rows[1..]), Shown(rows, 0);
    assert rows[0..] == rows;
    ShownFirst(rows, 0);
    assert messages[|shown| - 1] == shown[|shown| - 1] && (rest != [] ==> messages[|shown|] == rest[0]);
  }

  lemma ClashWithFirst(rows: seq<Row>, user: bool)
    requires rows != [] && !Hidden(rows[0])
    ensures (exists j: nat :: Clash(rows, 0, j, user)) <==>
        FirstVisible(rows[1..]).Some? && Clash(rows, 0, FirstVisible(rows[1..]).value + 1, user)
  {
    forall j: nat
      ensures Neighbours(rows, 0, j) <==> j > 0 && FirstVisible(rows[1..]) == Some(j - 1)
    {
      NeighbourOfFirst(rows, j);
    }
  }

  lemma ClashLater(rows: seq<Row>, user: bool)
    requires rows != []
    ensures (exists i: nat, j: nat :: Clash(rows, i, j, user)) <==>
              (exists j: nat :: Clash(rows, 0, j, user)) || (exists i: nat, j: nat :: Clash(rows[1..], i, j, user))
  {
    if exists i: nat, j: nat :: Clash(rows, i, j, user) {
      var i: nat, j: nat :| Clash(rows, i, j, user);
      if i > 0 {
        LaterNeighbours(rows, i - 1, j - 1);
        assert Clash(rows[1..], i - 1, j - 1, user);
      } else {
        assert Clash(rows, 0, j, user);
      }
    }
    if exists i: nat, j: nat :: Clash(rows[1..], i, j, user) {
      var i: nat, j: nat :| Clash(rows[1..], i, j, user);
      LaterNeighbours(rows, i, j);
      assert Clash(rows, i + 1, j + 1, user);
    }
  }

  lemma LaterNeighbours(rows: seq<Row>, i: nat, j: nat)
    requires rows != []
    ensures Neighbours(rows, i + 1, j + 1) <==> Neighbours(rows[1..], i, j)
  {
    var rest := rows[1..];
    assert forall k :: 0 <= k < |rest| ==> rest[k] == rows[k + 1];
    if Neighbours(rest, i, j) {
      forall k | i + 1 < k < j + 1 ensures Hidden(rows[k]) { assert Hidden(rest[k - 1]); }
    }
    if Neighbours(rows, i + 1, j + 1) {
      forall k | i < k < j ensures Hidden(rest[k]) { assert Hidden(rows[k + 1]); }
    }
  }

  /** Behind the messages of one row, messages meet where they meet in the rest. */
  lemma MeetLater(messages: seq<Message>, rest: seq<Message>, n: nat, user: bool)
    requires 1 <= n <= 2 && |messages| == n + |rest| && messages[n..] == rest
    requires n == 2 ==> !Meet(messages, 0, user)
    ensures (exists i: nat :: Meet(messages, i, user)) <==>
              Meet(messages, n - 1, user) || (exists i: nat :: Meet(rest, i, user))
  {
    assert forall k :: 0 <= k < |rest| ==> rest[k] == messages[n + k];
    if exists i: nat :: Meet(messages, i, user) {
      var i: nat :| Meet(messages, i, user);
      if i >= n { assert Meet(rest, i - n, user); }
    }
    if exists i: nat :: Meet(rest, i, user) {
      var i: nat :| Meet(rest, i, user);
      assert Meet(messages, n + i, user);
    }
  }

  /** Two messages of one role follow each other exactly when two rows of that role clash: the placeholder
      looks at the next stored row, not at the next visible one, and nothing comes between assistants. */
  lemma {:induction false} MeetIff(rows: seq<Row>, user: bool)
    ensures (exists i: nat :: Meet(Pairs(rows), i, user)) <==> (exists i: nat, j: nat :: Clash(rows, i, j, user))
  {
    if rows != [] {
      var messages, rest := Pairs(rows), Pairs(rows[1..]);
      MeetIff(rows[1..], user);
      ClashLater(rows, user);
      if !Hidden(rows[0]) {
        ClashAtFront(rows, user);
        MeetLater(messages, rest, |messages| - |rest|, user);
      }
    }
  }

  /** Users and assistants alternate strictly exactly when no user row is stranded and no assistant row
      doubled. */
  lemma AlternatesIff(rows: seq<Row>)
    ensures Alternates(Pairs(rows)) <==>
      (forall i: nat, j: nat :: !Stranded(rows, i, j)) && (forall i: nat, j: nat :: !Doubled(rows, i, j))
  {
    MeetIff(rows, true);
    MeetIff(rows, false);
    assert forall i: nat, j: nat :: Clash(rows, i, j, true) <==> Stranded(rows, i, j);
    assert forall i: nat, j: nat :: Clash(rows, i, j, false) <==> Doubled(rows, i, j);
  }

  /** A reasoning-only reply between two requests lets the requests meet. */
  lemma StrandedUserWitness()
    ensures var rows := [User("u"), Assistant(""), User("v")];
      Pairs(rows) == [UserMessage("u"), UserMessage("v"), AssistantMessage(PLACEHOLDER)] && !Alternates(Pairs(rows))
  {
    var rows := [User("u"), Assistant(""), User("v")];
    assert rows[1..] == [Assistant(""), User("v")] && rows[1..][1..] == [User("v")];
    assert Pairs([User("v")]) == [UserMessage("v"), AssistantMessage(PLACEHOLDER)];
    assert Meet(Pairs(rows), 0, true);
  }

  /** Two replies in a row stay two replies in a row. */
  lemma DoubledAssistantWitness()
    ensures var rows := [User("u"), Assistant("a"), Assistant("b")];
      Pairs(rows) == [UserMessage("u"), AssistantMessage("a"), AssistantMessage("b")] && !Alternates(Pairs(rows))
  {
    var rows := [User("u"), Assistant("a"), Assistant("b")];
    assert rows[1..] == [Assistant("a"), Assistant("b")] && rows[1..][1..] == [Assistant("b")];
    assert Pairs([Assistant("b")]) == [AssistantMessage("b")];
    assert Meet(Pairs(rows), 1, false);
  }
}
