/** `main.py`: the Telegram bot's in-memory leaderboard. A message is accepted as a
    `#mywin` submission when it carries the tag, a photo and a game name after the
    tag; it then earns 20 XP under that game, and otherwise it is deleted. `handle_reaction`,
    when called, gives the replied-to user 2 XP under "reaction". */
module MywinBot {
  import opened Optional
  import opened PyText

  const MYWIN_TAG := "#mywin"
  const SUBMISSION_XP := 20
  const REACTION_GAME := "reaction"
  const REACTION_XP := 2

  /** `leaderboard[user_id]`: the user's total XP and their XP per game. */
  datatype UserEntry = UserEntry(xp: int, games: map<string, int>)

  /** Some key of a non-empty set. */
  ghost function Pick(keys: set<string>): string
    requires keys != {}
  {
    var k :| k in keys; k
  }

  /** The sum of the per-game XP values. */
  ghost function Sum(games: map<string, int>): int
    decreases |games|
  {
    if games == map[] then 0
    else
      var k := Pick(games.Keys);
      games[k] + Sum(games - {k})
  }

  /** The sum does not depend on which key is taken out first. */
  lemma {:induction false} SumRemove(games: map<string, int>, k: string)
    requires k in games
    ensures Sum(games) == games[k] + Sum(games - {k})
    decreases |games|
  {
    var j := Pick(games.Keys);
    if j != k {
      SumRemove(games - {j}, k);
      SumRemove(games - {k}, j);
      assert games - {j} - {k} == games - {k} - {j};
    }
  }

  /** Adding `x` to one game's value (a missing game counting as 0) adds `x` to the sum. */
  lemma SumAdd(games: map<string, int>, g: string, x: int)
    ensures Sum(games[g := (if g in games then games[g] else 0) + x]) == Sum(games) + x
  {
    var updated := games[g := (if g in games then games[g] else 0) + x];
    SumRemove(updated, g);
    assert updated - {g} == games - {g};
    if g in games {
      SumRemove(games, g);
    } else {
      assert games - {g} == games;
    }
  }

  /** Every user's `xp` is the sum of their per-game XP. */
  ghost predicate TotalsMatch(users: map<int, UserEntry>) {
    forall u :: u in users ==> users[u].xp == Sum(users[u].games)
  }

  /** `add_to_leaderboard(user_id, game_name, xp)` on the dict's value: an absent user
      starts at `{"xp": 0, "games": {}}`, an absent game at 0; both totals grow by `xp`. */
  function AddXp(users: map<int, UserEntry>, u: int, g: string, x: int): map<int, UserEntry> {
    var e := if u in users then users[u] else UserEntry(0, map[]);
    var before := if g in e.games then e.games[g] else 0;
    users[u := UserEntry(e.xp + x, e.games[g := before + x])]
  }

  /** `add_to_leaderboard` raises the user's total and the game's value by `x` and
      changes nothing else: no other game of the user, no other user. */
  lemma AddXpEffect(users: map<int, UserEntry>, u: int, g: string, x: int)
    ensures var r := AddXp(users, u, g, x);
      && r.Keys == users.Keys + {u}
      && r[u].xp == (if u in users then users[u].xp else 0) + x
      && r[u].games.Keys == (if u in users then users[u].games.Keys else {}) + {g}
      && r[u].games[g] == (if u in users && g in users[u].games then users[u].games[g] else 0) + x
      && (forall h :: h in r[u].games && h != g ==> r[u].games[h] == users[u].games[h])
      && (forall v :: v in users && v != u ==> r[v] == users[v])
  {
  }

  /** An absent user enters with just the one game. */
  lemma AddXpNewUser(users: map<int, UserEntry>, u: int, g: string, x: int)
    requires u !in users
    ensures AddXp(users, u, g, x)[u] == UserEntry(x, map[g := x])
  {
  }

  /** `add_to_leaderboard` keeps every user's total equal to the sum of their games. */
  lemma AddXpKeepsTotals(users: map<int, UserEntry>, u: int, g: string, x: int)
    requires TotalsMatch(users)
    ensures TotalsMatch(AddXp(users, u, g, x))
  {
    var e := if u in users then users[u] else UserEntry(0, map[]);
    SumAdd(e.games, g, x);
  }

  /** One `add_to_leaderboard` call: user, game and amount. */
  datatype Award = Award(userId: int, game: string, xp: int)

  /** The leaderboard after a sequence of awards. */
  function AwardAll(users: map<int, UserEntry>, awards: seq<Award>): map<int, UserEntry> {
    if awards == [] then users
    else
      var a := awards[|awards| - 1];
      AddXp(AwardAll(users, awards[..|awards| - 1]), a.userId, a.game, a.xp)
  }

  /** From the empty leaderboard, whatever awards follow, every user's `xp` is the
      sum of their per-game XP. */
  lemma {:induction false} AwardsKeepTotals(awards: seq<Award>)
    ensures TotalsMatch(AwardAll(map[], awards))
  {
    if awards != [] {
      var a := awards[|awards| - 1];
      AwardsKeepTotals(awards[..|awards| - 1]);
      AddXpKeepsTotals(AwardAll(map[], awards[..|awards| - 1]), a.userId, a.game, a.xp);
    }
  }

  /** The parts of an incoming message the handlers read: `message.text` (possibly
      absent), how many photo sizes `message.photo` lists, the sender, and the sender
      of the message it replies to, if any. */
  datatype Message = Message(text: Option<string>, photos: nat, fromUserId: int, replyToUserId: Option<int>)

  /** What `handle_message` does with a message. */
  datatype Decision = Accept(award: Award) | Delete

  /** The acceptance rule of `handle_message`: the tag in the text, a photo, and a
      non-empty game name, which is the text after the first tag with whitespace
      stripped. */
  function Decide(msg: Message): Decision {
    var text := msg.text.GetOr("");
    if Contains(text, MYWIN_TAG) && msg.photos > 0 then
      var parts := SplitOnce(text, MYWIN_TAG);
      var gameName := if |parts| > 1 then Strip(parts[1]) else "";
      if gameName != [] then Accept(Award(msg.fromUserId, gameName, SUBMISSION_XP)) else Delete
    else Delete
  }

  /** The rule restated on positions: a message is accepted exactly when it has a
      photo and the tag occurs in its text with something other than whitespace
      after the first occurrence; the award is 20 XP to the sender under the stripped
      remainder, which neither starts nor ends with whitespace. */
  lemma DecideSpec(msg: Message)
    ensures var text := msg.text.GetOr("");
      var i := Find(text, MYWIN_TAG);
      && (Decide(msg).Accept? <==> msg.photos > 0 && i >= 0 && !AllSpace(text[i + |MYWIN_TAG|..]))
      && (Decide(msg).Accept? ==>
        && Decide(msg).award == Award(msg.fromUserId, Strip(text[i + |MYWIN_TAG|..]), 20)
        && !IsSpace(Decide(msg).award.game[0])
        && !IsSpace(Decide(msg).award.game[|Decide(msg).award.game| - 1]))
  {
    var text := msg.text.GetOr("");
    if Contains(text, MYWIN_TAG) {
      var parts := SplitOnce(text, MYWIN_TAG);
      var i := |parts[0]|;
      assert text[i + |MYWIN_TAG|..] == parts[1] by {
        assert text == parts[0] + MYWIN_TAG + parts[1];
      }
    }
  }

  /** The module-level `leaderboard` dict, updated in place by the handlers. */
  class Leaderboard {
    var users: map<int, UserEntry>

    ghost predicate Valid()
      reads this
    {
      TotalsMatch(users)
    }

    /** `leaderboard = {}` */
    constructor ()
      ensures users == map[] && Valid()
    {
      users := map[];
    }

    /** `add_to_leaderboard(user_id, game_name, xp)`, step by step as the source does. */
    method AddToLeaderboard(u: int, g: string, x: int)
      modifies this
      ensures users == AddXp(old(users), u, g, x)
      ensures old(Valid()) ==> Valid()
    {
      if TotalsMatch(users) {
        AddXpKeepsTotals(users, u, g, x);
      }
      ghost var e := if u in users then users[u] else UserEntry(0, map[]);
      ghost var before := if g in e.games then e.games[g] else 0;
      if u !in users {
        users := users[u := UserEntry(0, map[])];
      }
      users := users[u := users[u].(xp := users[u].xp + x)];
      if g !in users[u].games {
        users := users[u := users[u].(games := users[u].games[g := 0])];
      }
      assert users[u].games == e.games[g := before];
      users := users[u := users[u].(games := users[u].games[g := users[u].games[g] + x])];
      assert users[u] == UserEntry(e.xp + x, e.games[g := before + x]);
    }

    /** `handle_message`: award the submission, or report that the message is to be
        deleted, leaving the leaderboard as it was. */
    method HandleMessage(msg: Message) returns (deleted: bool)
      modifies this
      ensures deleted <==> Decide(msg).Delete?
      ensures !deleted ==> users == AddXp(old(users), msg.fromUserId, Decide(msg).award.game, 20)
      ensures deleted ==> users == old(users)
      ensures old(Valid()) ==> Valid()
    {
      var text := msg.text.GetOr("");
      var hasPhoto := msg.photos > 0;
      if Contains(text, MYWIN_TAG) && hasPhoto {
        var parts := SplitOnce(text, MYWIN_TAG);
        var gameName := if |parts| > 1 then Strip(parts[1]) else "";
        if gameName != [] {
          AddToLeaderboard(msg.fromUserId, gameName, SUBMISSION_XP);
          deleted := false;
        } else {
          deleted := true;
        }
      } else {
        deleted := true;
      }
    }

    /** `handle_reaction`: 2 XP under "reaction" to the author of the replied-to
        message; nothing when the message is not a reply. */
    method HandleReaction(msg: Message)
      modifies this
      ensures msg.replyToUserId.Some? ==> users == AddXp(old(users), msg.replyToUserId.value, REACTION_GAME, REACTION_XP)
      ensures msg.replyToUserId.None? ==> users == old(users)
      ensures old(Valid()) ==> Valid()
    {
      if msg.replyToUserId.Some? {
        AddToLeaderboard(msg.replyToUserId.value, REACTION_GAME, REACTION_XP);
      }
    }
  }
}
