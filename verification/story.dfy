/**
 * The story and turn tables and the five queries over them: create a story,
 * look one up for its owner, list an owner's stories most recently updated
 * first, append a turn with the next index, and read the latest turns.
 */
module StoryCrud {
  import opened Wrappers
  import opened JsonDoc

  /** A row of `stories`; `ownerId == None` marks a template. */
  datatype Story = Story(
    id: int,
    ownerId: Option<int>,
    title: string,
    config: Option<Config>,
    createdAt: int,
    updatedAt: int)

  /** A row of `story_turns` as the queries use it: one exchange with its index within the story. */
  datatype TurnRow = TurnRow(id: int, storyId: int, idx: int, userText: string, modelText: string)

  /** The database refused the insert (a NOT NULL column was given no value). */
  datatype DbError = NotNullViolation(column: string)

  function UpdatedAt(s: Story): int { s.updatedAt }

  function Idx(t: TurnRow): int { t.idx }

  function Min(a: int, b: int): int { if a <= b then a else b }

  // ---------- ordering ----------

  ghost predicate NonIncreasing<T>(s: seq<T>, key: T -> int)
  {
    forall i, j :: 0 <= i < j < |s| ==> key(s[i]) >= key(s[j])
  }

  function InsertDesc<T(!new)>(x: T, s: seq<T>, key: T -> int): (r: seq<T>)
    requires NonIncreasing(s, key)
    ensures multiset(r) == multiset(s) + multiset{x}
    ensures NonIncreasing(r, key)
  {
    if s == [] then [x]
    else if key(s[0]) <= key(x) then [x] + s
    else
      var rest := InsertDesc(x, s[1..], key);
      assert s == [s[0]] + s[1..];
      assert forall j :: 0 <= j < |rest| ==> key(rest[j]) <= key(s[0]) by {
        forall j | 0 <= j < |rest| ensures key(rest[j]) <= key(s[0]) {
          assert rest[j] in multiset(s[1..]) + multiset{x};
        }
      }
      [s[0]] + rest
  }

  /** `ORDER BY key DESC`: a permutation of `s` whose keys never increase. */
  function SortDesc<T(!new)>(s: seq<T>, key: T -> int): (r: seq<T>)
    ensures multiset(r) == multiset(s)
    ensures NonIncreasing(r, key)
  {
    if s == [] then []
    else
      assert s == [s[0]] + s[1..];
      InsertDesc(s[0], SortDesc(s[1..], key), key)
  }

  /** Two sequences with the same multiset have the same length and the same elements. */
  lemma SameElements<T>(a: seq<T>, b: seq<T>)
    requires multiset(a) == multiset(b)
    ensures |a| == |b|
    ensures forall y :: y in a <==> y in b
  {
    assert |a| == |multiset(a)|;
    forall y ensures y in a <==> y in b {
      assert y in a <==> y in multiset(a);
    }
  }

  function Reverse<T>(s: seq<T>): (r: seq<T>)
    ensures |r| == |s|
  {
    if s == [] then [] else Reverse(s[1..]) + [s[0]]
  }

  lemma {:induction false} ReverseMultiset<T>(s: seq<T>)
    ensures multiset(Reverse(s)) == multiset(s)
  {
    if s != [] {
      ReverseMultiset(s[1..]);
      assert s == [s[0]] + s[1..];
    }
  }

  lemma {:induction false} ReverseAt<T>(s: seq<T>, i: nat)
    requires i < |s|
    ensures Reverse(s)[i] == s[|s| - 1 - i]
  {
    if i < |s| - 1 {
      ReverseAt(s[1..], i);
    }
  }

  /** `.limit(n)`. */
  function Take<T>(s: seq<T>, n: nat): (r: seq<T>)
    ensures |r| == Min(n, |s|) && r == s[..|r|]
  {
    if n >= |s| then s else s[..n]
  }

  // ---------- stories ----------

  /** The first story with this id and this owner; a template never matches. */
  function FindOwned(stories: seq<Story>, storyId: int, ownerId: int): (r: Option<Story>)
    ensures r.Some? ==> r.value in stories && r.value.id == storyId && r.value.ownerId == Some(ownerId)
    ensures r.None? ==> forall s :: s in stories ==> !(s.id == storyId && s.ownerId == Some(ownerId))
  {
    if stories == [] then None
    else if stories[0].id == storyId && stories[0].ownerId == Some(ownerId) then Some(stories[0])
    else FindOwned(stories[1..], storyId, ownerId)
  }

  /** `WHERE owner_id = ownerId`, in table order. */
  function OwnedBy(stories: seq<Story>, ownerId: int): (r: seq<Story>)
    ensures forall s :: s in r <==> s in stories && s.ownerId == Some(ownerId)
  {
    if stories == [] then []
    else (if stories[0].ownerId == Some(ownerId) then [stories[0]] else [])
         + OwnedBy(stories[1..], ownerId)
  }

  /** `UPDATE stories SET updated_at = now WHERE id = storyId`. */
  function Touch(stories: seq<Story>, storyId: int, now: int): (r: seq<Story>)
    ensures |r| == |stories|
    ensures forall i :: 0 <= i < |r| ==>
      r[i] == if stories[i].id == storyId then stories[i].(updatedAt := now) else stories[i]
  {
    seq(|stories|, i requires 0 <= i < |stories| =>
      if stories[i].id == storyId then stories[i].(updatedAt := now) else stories[i])
  }

  // ---------- turns ----------

  /** `WHERE story_id = storyId`, in insertion order. */
  function TurnsOf(rows: seq<TurnRow>, storyId: int): (r: seq<TurnRow>)
    ensures |r| <= |rows|
  {
    if rows == [] then []
    else
      var last := rows[|rows| - 1];
      TurnsOf(rows[..|rows| - 1], storyId) + (if last.storyId == storyId then [last] else [])
  }

  /** `filter(story_id == id)`: exactly the rows of that story. */
  lemma {:induction false} TurnsOfMembers(rows: seq<TurnRow>, storyId: int)
    ensures forall t :: t in TurnsOf(rows, storyId) <==> t in rows && t.storyId == storyId
  {
    if rows != [] {
      var init := rows[..|rows| - 1];
      TurnsOfMembers(init, storyId);
      assert rows == init + [rows[|rows| - 1]];
    }
  }

  lemma TurnsOfAppend(rows: seq<TurnRow>, row: TurnRow, storyId: int)
    ensures TurnsOf(rows + [row], storyId) ==
      TurnsOf(rows, storyId) + (if row.storyId == storyId then [row] else [])
  {
    assert (rows + [row])[..|rows|] == rows;
  }

  /** `SELECT max(idx)`: None when there is no row. */
  function MaxIdx(ts: seq<TurnRow>): (m: Option<int>)
    ensures m.None? <==> ts == []
    ensures m.Some? ==> (exists k :: 0 <= k < |ts| && ts[k].idx == m.value)
                        && forall k :: 0 <= k < |ts| ==> ts[k].idx <= m.value
  {
    if ts == [] then None
    else
      var last := ts[|ts| - 1].idx;
      match MaxIdx(ts[..|ts| - 1])
      case None => Some(last)
      case Some(m) => Some(if m < last then last else m)
  }

  /** A story's turns carry the indexes 1, 2, ..., n in insertion order. */
  ghost predicate Counted(ts: seq<TurnRow>)
  {
    forall k :: 0 <= k < |ts| ==> ts[k].idx == k + 1
  }

  /** Appending a turn numbered one past its story's count keeps every story's turns counted. */
  lemma AppendKeepsCounted(rows: seq<TurnRow>, turn: TurnRow)
    requires forall sid :: Counted(TurnsOf(rows, sid))
    requires turn.idx == |TurnsOf(rows, turn.storyId)| + 1
    ensures forall sid :: Counted(TurnsOf(rows + [turn], sid))
  {
    forall sid ensures Counted(TurnsOf(rows + [turn], sid)) {
      TurnsOfAppend(rows, turn, sid);
      assert Counted(TurnsOf(rows, sid));
    }
  }

  lemma MaxIdxOfCounted(ts: seq<TurnRow>)
    requires Counted(ts)
    ensures MaxIdx(ts) == if ts == [] then None else Some(|ts|)
  {
    if ts != [] {
      assert ts[|ts| - 1].idx == |ts|;
    }
  }

  /** `ORDER BY idx DESC LIMIT limit`, then reversed back to oldest first. */
  function LatestTurns(rows: seq<TurnRow>, storyId: int, limit: nat): (r: seq<TurnRow>)
    ensures |r| == Min(limit, |TurnsOf(rows, storyId)|)
  {
    var ts := TurnsOf(rows, storyId);
    SameElements(SortDesc(ts, Idx), ts);
    Reverse(Take(SortDesc(ts, Idx), limit))
  }

  /** Inserting an element whose key is below every key of `r` puts it last. */
  lemma {:induction false} InsertDescBelowAll<T(!new)>(x: T, r: seq<T>, key: T -> int)
    requires NonIncreasing(r, key)
    requires forall y :: y in r ==> key(y) > key(x)
    ensures InsertDesc(x, r, key) == r + [x]
  {
    if r != [] {
      var tail := r[1..];
      assert r == [r[0]] + tail;
      InsertDescBelowAll(x, tail, key);
    }
  }

  /** Sorting descending a sequence whose keys strictly increase reverses it. */
  lemma {:induction false} SortDescOfIncreasing<T(!new)>(s: seq<T>, key: T -> int)
    requires forall i, j :: 0 <= i < j < |s| ==> key(s[i]) < key(s[j])
    ensures SortDesc(s, key) == Reverse(s)
  {
    if s != [] {
      var tail := s[1..];
      SortDescOfIncreasing(tail, key);
      SameElements(SortDesc(tail, key), tail);
      forall y | y in SortDesc(tail, key) ensures key(y) > key(s[0]) {
        assert y in tail;
      }
      InsertDescBelowAll(s[0], SortDesc(tail, key), key);
    }
  }

  /** Reversing the first `m` elements of the reversal gives the last `m` elements in order. */
  lemma {:induction false} LastOfReversal<T>(s: seq<T>, m: nat)
    requires m <= |s|
    ensures Reverse(Take(Reverse(s), m)) == s[|s| - m..]
  {
    var rev := Reverse(s);
    var kept := Take(rev, m);
    assert |kept| == m;
    forall j | 0 <= j < m ensures Reverse(kept)[j] == s[|s| - m + j] {
      ReverseAt(kept, j);
      assert Reverse(kept)[j] == kept[m - 1 - j] == rev[m - 1 - j];
      ReverseAt(s, m - 1 - j);
    }
  }

  /**
   * When a story's turns are numbered 1..n in insertion order, `get_turns`
   * returns its last min(limit, n) turns, oldest first.
   */
  lemma LatestTurnsAreTail(rows: seq<TurnRow>, storyId: int, limit: nat)
    requires Counted(TurnsOf(rows, storyId))
    ensures var ts := TurnsOf(rows, storyId);
      LatestTurns(rows, storyId, limit) == ts[|ts| - Min(limit, |ts|)..]
  {
    var ts := TurnsOf(rows, storyId);
    SortDescOfIncreasing(ts, Idx);
    LastOfReversal(ts, Min(limit, |ts|));
  }

  /** Appending rows of one story extends that story's turns by exactly those rows, in order. */
  lemma {:induction false} TurnsOfAppendAll(rows: seq<TurnRow>, added: seq<TurnRow>, storyId: int)
    requires forall k :: 0 <= k < |added| ==> added[k].storyId == storyId
    ensures TurnsOf(rows + added, storyId) == TurnsOf(rows, storyId) + added
    decreases |added|
  {
    if added != [] {
      var first := added[0];
      var rest := added[1..];
      TurnsOfAppend(rows, first, storyId);
      TurnsOfAppendAll(rows + [first], rest, storyId);
      assert rows + added == (rows + [first]) + rest;
      assert added == [first] + rest;
    } else {
      assert rows + added == rows;
    }
  }

  /**
   * After N turns have been appended to a story that had none, reading with
   * `limit >= N` returns exactly those N turns in insertion order.
   */
  lemma ReadBackAll(rows: seq<TurnRow>, added: seq<TurnRow>, storyId: int, limit: nat)
    requires TurnsOf(rows, storyId) == []
    requires forall k :: 0 <= k < |added| ==> added[k].storyId == storyId && added[k].idx == k + 1
    requires limit >= |added|
    ensures LatestTurns(rows + added, storyId, limit) == added
  {
    TurnsOfAppendAll(rows, added, storyId);
    assert TurnsOf(rows + added, storyId) == added;
    LatestTurnsAreTail(rows + added, storyId, limit);
  }

  class StoryTable {
    var stories: seq<Story>
    var turns: seq<TurnRow>

    /** Ids are assigned 1, 2, ... in insertion order, and each story's turn indexes count up from 1. */
    ghost predicate Valid()
      reads this
    {
      && (forall i :: 0 <= i < |stories| ==> stories[i].id == i + 1)
      && (forall i :: 0 <= i < |turns| ==> turns[i].id == i + 1)
      && (forall sid :: Counted(TurnsOf(turns, sid)))
    }

    constructor ()
      ensures Valid() && stories == [] && turns == []
    {
      stories := [];
      turns := [];
    }

    /** `create_story`; the `title` column is NOT NULL, so a missing title makes the commit fail. */
    method CreateStory(ownerId: int, config: Config, title: Option<string>, now: int)
      returns (r: Result<Story, DbError>)
      requires Valid()
      modifies this
      ensures Valid() && turns == old(turns)
      ensures title.None? ==> r == Err(NotNullViolation("title")) && stories == old(stories)
      ensures title.Some? ==>
        && r == Ok(Story(|old(stories)| + 1, Some(ownerId), title.value, Some(config), now, now))
        && stories == old(stories) + [r.value]
    {
      if title.None? {
        return Err(NotNullViolation("title"));
      }
      var story := Story(|stories| + 1, Some(ownerId), title.value, Some(config), now, now);
      stories := stories + [story];
      r := Ok(story);
    }

    /** `get_story`: the story with this id, only if `ownerId` owns it. */
    function GetStory(storyId: int, ownerId: int): (r: Option<Story>)
      reads this
      ensures r.Some? ==> r.value in stories && r.value.id == storyId && r.value.ownerId == Some(ownerId)
      ensures r.None? <==> forall s :: s in stories ==> !(s.id == storyId && s.ownerId == Some(ownerId))
    {
      FindOwned(stories, storyId, ownerId)
    }

    /** `list_stories_for_user`: exactly the owner's stories, most recently updated first. */
    function ListStoriesForUser(ownerId: int): (r: seq<Story>)
      reads this
      ensures forall s :: s in r <==> s in stories && s.ownerId == Some(ownerId)
      ensures multiset(r) == multiset(OwnedBy(stories, ownerId))
      ensures NonIncreasing(r, UpdatedAt)
    {
      var owned := OwnedBy(stories, ownerId);
      SameElements(SortDesc(owned, UpdatedAt), owned);
      SortDesc(owned, UpdatedAt)
    }

    /** `add_turn`: appends one turn with index max+1 (1 for the first) and refreshes the story's `updated_at`. */
    method AddTurn(storyId: int, userText: string, modelText: string, now: int) returns (turn: TurnRow)
      requires Valid()
      modifies this
      ensures Valid()
      ensures turn == TurnRow(|old(turns)| + 1, storyId, |TurnsOf(old(turns), storyId)| + 1, userText, modelText)
      ensures turns == old(turns) + [turn]
      ensures TurnsOf(turns, storyId) == TurnsOf(old(turns), storyId) + [turn]
      ensures forall sid :: sid != storyId ==> TurnsOf(turns, sid) == TurnsOf(old(turns), sid)
      ensures stories == Touch(old(stories), storyId, now)
    {
      var lastIdx := MaxIdx(TurnsOf(turns, storyId));
      MaxIdxOfCounted(TurnsOf(turns, storyId));
      var nextIdx := (match lastIdx case None => 0 case Some(m) => m) + 1;
      turn := TurnRow(|turns| + 1, storyId, nextIdx, userText, modelText);
      AppendKeepsCounted(turns, turn);
      forall sid ensures TurnsOf(turns + [turn], sid) ==
        TurnsOf(turns, sid) + (if turn.storyId == sid then [turn] else [])
      {
        TurnsOfAppend(turns, turn, sid);
      }
      turns := turns + [turn];
      stories := Touch(stories, storyId, now);
    }

    /** `get_turns`: at most `limit` of the story's turns, oldest first. */
    function GetTurns(storyId: int, limit: nat := 50): (r: seq<TurnRow>)
      reads this
      ensures |r| == Min(limit, |TurnsOf(turns, storyId)|)
      ensures Valid() ==> var ts := TurnsOf(turns, storyId);
        r == ts[|ts| - Min(limit, |ts|)..]
    {
      assert Valid() ==> var ts := TurnsOf(turns, storyId);
        LatestTurns(turns, storyId, limit) == ts[|ts| - Min(limit, |ts|)..] by {
        if Valid() {
          LatestTurnsAreTail(turns, storyId, limit);
        }
      }
      LatestTurns(turns, storyId, limit)
    }
  }
}
