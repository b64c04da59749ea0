/** The three numbers the phone shows. */
module ApprovalChoices {
  import opened Common

  function Swapped(s: seq<int>, i: nat, j: nat): seq<int>
    requires i < |s| && j < |s|
  {
    s[i := s[j]][j := s[i]]
  }

  /** Fisher-Yates on three numbers, with the two random positions it draws. */
  function Shuffled(s: seq<int>, j2: nat, j1: nat): seq<int>
    requires |s| == 3 && j2 < 3 && j1 < 2
  {
    Swapped(Swapped(s, 2, j2), 1, j1)
  }

  ghost predicate Distinct(s: seq<int>) {
    forall i, j :: 0 <= i < j < |s| ==> s[i] != s[j]
  }

  /** The shuffle is fair to the right answer: each position is where it lands for two of the six draws. */
  lemma EveryPositionIsEquallyLikely(s: seq<int>, p: nat)
    requires |s| == 3 && Distinct(s) && p < 3
    ensures (set j2: nat, j1: nat | j2 < 3 && j1 < 2 && Shuffled(s, j2, j1)[p] == s[0] :: (j2, j1))
      == (if p == 0 then {(1, 1), (2, 1)} else if p == 1 then {(1, 0), (2, 0)} else {(0, 0), (0, 1)})
    ensures |set j2: nat, j1: nat | j2 < 3 && j1 < 2 && Shuffled(s, j2, j1)[p] == s[0] :: (j2, j1)| == 2
  {
    var draws := set j2: nat, j1: nat | j2 < 3 && j1 < 2 && Shuffled(s, j2, j1)[p] == s[0] :: (j2, j1);
    var expected := if p == 0 then {(1, 1), (2, 1)} else if p == 1 then {(1, 0), (2, 0)} else {(0, 0), (0, 1)};
    forall j2: nat, j1: nat | j2 < 3 && j1 < 2 ensures Shuffled(s, j2, j1)[p] == s[0] <==> (j2, j1) in expected {
      var mid := Swapped(s, 2, j2);
      assert mid == if j2 == 0 then [s[2], s[1], s[0]] else if j2 == 1 then [s[0], s[2], s[1]] else s;
    }
    assert draws == expected;
  }

  /**
   * `draws` are the random numbers from 10 to 99 still to come; the source keeps drawing until it
   * has three different ones, so a run that uses them up gives no answer here.
   */
  method ChoicesFor(number: int, draws: seq<int>, j2: nat, j1: nat) returns (r: Option<seq<int>>)
    requires 10 <= number < 100 && j2 < 3 && j1 < 2
    requires forall k :: 0 <= k < |draws| ==> 10 <= draws[k] < 100
    ensures r.Some? ==> |r.value| == 3 && Distinct(r.value) && forall k :: 0 <= k < 3 ==> 10 <= r.value[k] < 100
    ensures r.Some? ==> r.value[if j2 == 0 then 2 else 1 - j1] == number
    ensures r.None? ==> |set k | 0 <= k < |draws| && draws[k] != number :: draws[k]| <= 1
  {
    var chosen := [number];
    var i := 0;
    while |chosen| < 3 && i < |draws|
      invariant 0 <= i <= |draws| && 1 <= |chosen| <= 3
      invariant chosen[0] == number && Distinct(chosen)
      invariant forall k :: 0 <= k < |chosen| ==> 10 <= chosen[k] < 100
      invariant forall k :: 0 <= k < i ==> |chosen| < 3 ==> draws[k] in chosen
    {
      if draws[i] !in chosen {
        chosen := chosen + [draws[i]];
      }
      i := i + 1;
    }
    if |chosen| < 3 {
      OthersAreFew(draws, chosen);
      return None;
    }
    var list := new int[3](k requires 0 <= k < 3 => chosen[k]);
    list[2], list[j2] := list[j2], list[2];
    list[1], list[j1] := list[j1], list[1];
    r := Some(list[..]);
    assert list[..] == Shuffled(chosen, j2, j1);
    ShuffleKeeps(chosen, j2, j1);
  }

  lemma OthersAreFew(draws: seq<int>, chosen: seq<int>)
    requires 1 <= |chosen| < 3 && forall k :: 0 <= k < |draws| ==> draws[k] in chosen
    ensures |set k | 0 <= k < |draws| && draws[k] != chosen[0] :: draws[k]| <= 1
  {
    var others := set k | 0 <= k < |draws| && draws[k] != chosen[0] :: draws[k];
    if |chosen| == 1 {
      assert others == {};
    } else {
      assert others <= {chosen[1]};
      assert others == {} || others == {chosen[1]};
    }
  }

  lemma ShuffleCases(s: seq<int>, j2: nat, j1: nat)
    requires |s| == 3 && j2 < 3 && j1 < 2
    ensures var mid :=
        if j2 == 0 then [s[2], s[1], s[0]] else if j2 == 1 then [s[0], s[2], s[1]] else [s[0], s[1], s[2]];
      Shuffled(s, j2, j1) == if j1 == 0 then [mid[1], mid[0], mid[2]] else mid
  {
    var mid := Swapped(s, 2, j2);
    assert mid == if j2 == 0 then [s[2], s[1], s[0]] else if j2 == 1 then [s[0], s[2], s[1]] else [s[0], s[1], s[2]];
    assert Swapped(mid, 1, j1) == if j1 == 0 then [mid[1], mid[0], mid[2]] else mid;
  }

  lemma ShuffleKeeps(s: seq<int>, j2: nat, j1: nat)
    requires |s| == 3 && Distinct(s) && j2 < 3 && j1 < 2
    ensures var r := Shuffled(s, j2, j1);
      && |r| == 3 && Distinct(r)
      && r[if j2 == 0 then 2 else 1 - j1] == s[0]
      && (forall k :: 0 <= k < 3 ==> r[k] in s)
  {
    ShuffleCases(s, j2, j1);
  }
}

/** The table the server keeps, updated in place. */
module ApprovalStores {
  import opened Common
  import opened Approvals

  class ApprovalStore {
    var rows: Table

    constructor ()
      ensures rows == EMPTY.rows
    {
      rows := map[];
    }

    method Start(id: string, userId: string, interaction: string, number: int, choices: seq<int>, now: int)
      requires id !in rows
      modifies this
      ensures rows == Started(old(rows), id, userId, interaction, number, choices, now)
    {
      rows := rows[id := Row(userId, interaction, number, choices, now + TTL_MS, None, None, None, None)];
    }

    method State(id: string, interaction: string, now: int) returns (s: Option<State>)
      ensures s == StateOf(rows, id, interaction, now)
    {
      if id !in rows || rows[id].interaction != interaction {
        return None;
      }
      var row := rows[id];
      if row.result.Some? {
        return Some(Decided(row.result.value));
      }
      s := Some(if row.expiresAt <= now then PastExpiry else Pending);
    }

    method AnswerRead(id: string, userId: string, input: Input, grantId: string, now: int) returns (r: Read)
      ensures r == ReadFor(rows, id, userId, input, grantId, now)
    {
      if id !in rows || rows[id].userId != userId {
        return Replied(NotYours);
      }
      var row := rows[id];
      if row.answeredAt.Some? {
        return Replied(Gone);
      }
      if row.expiresAt <= now {
        return Replied(Expired);
      }
      var verdict := if input.deny then Denied else if input.number == Some(row.number) then Approved else WrongNumber;
      r := Proceed(Ticket(id, userId, input, verdict, grantId, now));
    }

    method AnswerWrite(k: Ticket) returns (reply: Reply)
      modifies this
      ensures rows == Written(old(rows), k)
      ensures reply == if StillOpen(old(rows), k) then Answered(k.verdict) else Gone
    {
      if k.id in rows {
        var row := rows[k.id];
        if row.userId == k.userId && row.answeredAt.None? && k.now < row.expiresAt {
          rows := rows[k.id := row.(answeredAt := Some(k.now), result := Some(k.verdict),
            answeredBy := Some(k.grantId))];
          return Answered(k.verdict);
        }
      }
      reply := Gone;
    }

    method Consume(id: string, interaction: string, now: int) returns (ok: bool)
      modifies this
      ensures rows == Consumed(old(rows), id, interaction, now)
      ensures ok == Spendable(old(rows), id, interaction)
    {
      ok := false;
      if id in rows {
        var row := rows[id];
        if row.interaction == interaction && row.result == Some(Approved) && row.consumedAt.None? {
          rows := rows[id := row.(consumedAt := Some(now))];
          ok := true;
        }
      }
    }
  }
}
