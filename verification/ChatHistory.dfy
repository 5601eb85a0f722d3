/**
 Chat history of apps/api/src/channel-ai.ts: same-role messages merged, the last
 forty kept, and older turns read from the database once per key. The lists are
 shared objects, so what is added while that read is awaited matters.
 */
module ChatHistory {
  import opened Wrappers

  const MAX_HISTORY: nat := 40

  datatype Role = User | Assistant

  datatype Message = Message(role: Role, content: string, images: seq<string>)

  /** A row of the conversations table; an absent text is empty. */
  datatype Row = Row(message: string, reply: string)

  // ── Merging ───────────────────────────────────────────────────────────────

  /** `add` keeps the pictures of both messages, `dedupeRoles` those of the first. */
  function Join(a: Message, b: Message, images: bool): Message {
    Message(a.role, a.content + ['\n'] + b.content, if images then a.images + b.images else a.images)
  }

  function Append(list: seq<Message>, m: Message, images: bool): seq<Message> {
    if list != [] && list[|list| - 1].role == m.role then
      list[..|list| - 1] + [Join(list[|list| - 1], m, images)]
    else list + [m]
  }

  /** A run of messages with neighbours of one role merged. */
  function Merged(ms: seq<Message>, images: bool): seq<Message> {
    if ms == [] then [] else Append(Merged(ms[..|ms| - 1], images), ms[|ms| - 1], images)
  }

  function Recent(list: seq<Message>): (r: seq<Message>)
    ensures |r| <= MAX_HISTORY
  {
    if |list| > MAX_HISTORY then list[|list| - MAX_HISTORY..] else list
  }

  predicate Alternates(list: seq<Message>) {
    forall i :: 0 < i < |list| ==> list[i - 1].role != list[i].role
  }

  lemma {:induction false} MergedAlternates(ms: seq<Message>, images: bool)
    ensures Alternates(Merged(ms, images))
  {
    if ms != [] {
      MergedAlternates(ms[..|ms| - 1], images);
    }
  }

  lemma AppendJoined(list: seq<Message>, a: Message, b: Message, images: bool)
    requires a.role == b.role
    ensures Append(list, Join(a, b, images), images) == Append(Append(list, a, images), b, images)
  {
    if list != [] && list[|list| - 1].role == a.role {
      var last := list[|list| - 1];
      var c := last.content;
      assert c + ['\n'] + (a.content + ['\n'] + b.content) == c + ['\n'] + a.content + ['\n'] + b.content;
      assert last.images + (a.images + b.images) == last.images + a.images + b.images;
    }
  }

  lemma MergedSnoc(list: seq<Message>, m: Message, images: bool)
    ensures Merged(list + [m], images) == Append(Merged(list, images), m, images)
  {
    assert (list + [m])[..|list|] == list;
  }

  lemma PutIsAppend(list: seq<Message>, m: Message)
    ensures Append(list, m, false)
      == if |list| > 0 && list[|list| - 1].role == m.role then
           list[|list| - 1 := list[|list| - 1].(content := list[|list| - 1].content + ['\n'] + m.content)]
         else list + [m]
  {
  }

  method DedupeRoles(messages: seq<Message>) returns (result: seq<Message>)
    ensures result == Merged(messages, false)
  {
    result := [];
    for i := 0 to |messages|
      invariant result == Merged(messages[..i], false)
    {
      var m := messages[i];
      assert messages[..i + 1] == messages[..i] + [m];
      MergedSnoc(messages[..i], m, false);
      PutIsAppend(result, m);
      if |result| > 0 && result[|result| - 1].role == m.role {
        var last := result[|result| - 1];
        result := result[|result| - 1 := last.(content := last.content + ['\n'] + m.content)];
      } else {
        result := result + [m];
      }
    }
    assert messages[..|messages|] == messages;
  }

  lemma MergedAppend(xs: seq<Message>, list: seq<Message>, m: Message, images: bool)
    ensures Merged(xs + Append(list, m, images), images) == Append(Merged(xs + list, images), m, images)
  {
    if list != [] && list[|list| - 1].role == m.role {
      var before, last := xs + list[..|list| - 1], list[|list| - 1];
      var joined := Join(last, m, images);
      assert xs + Append(list, m, images) == before + [joined];
      assert xs + list == before + [last];
      MergedSnoc(before, joined, images);
      MergedSnoc(before, last, images);
      AppendJoined(Merged(before, images), last, m, images);
    } else {
      assert xs + Append(list, m, images) == xs + list + [m];
      MergedSnoc(xs + list, m, images);
    }
  }

  lemma MoveLast(xs: seq<Message>, ys: seq<Message>)
    requires ys != []
    ensures xs + ys[..|ys| - 1] + [ys[|ys| - 1]] == xs + ys
  {
  }

  /** Merging a tail first changes nothing. */
  lemma {:induction false} MergeTailFirst(xs: seq<Message>, ys: seq<Message>, images: bool)
    ensures Merged(xs + Merged(ys, images), images) == Merged(xs + ys, images)
    decreases |ys|
  {
    if ys != [] {
      var init, last := ys[..|ys| - 1], ys[|ys| - 1];
      var m := Merged(init, images);
      MergeTailFirst(xs, init, images);
      MergedAppend(xs, m, last, images);
      assert Merged(ys, images) == Append(m, last, images);
      MergedSnoc(xs + init, last, images);
      MoveLast(xs, ys);
    }
  }

  /** Messages that alternate are left alone. */
  lemma {:induction false} AlternatingKept(ms: seq<Message>, images: bool)
    requires forall i :: 0 < i < |ms| ==> ms[i - 1].role != ms[i].role
    ensures Merged(ms, images) == ms
  {
    if ms != [] {
      AlternatingKept(ms[..|ms| - 1], images);
      assert ms == ms[..|ms| - 1] + [ms[|ms| - 1]];
    }
  }

  /**
   Two neighbours of one role count as one message: the texts on two lines, and
   the pictures of both, or of the first alone. With AlternatingKept this fixes
   the merged run of any messages.
   */
  lemma {:induction false} NeighboursMerge(xs: seq<Message>, a: Message, b: Message, ys: seq<Message>, images: bool)
    requires a.role == b.role
    ensures Merged(xs + [a, b] + ys, images)
      == Merged(xs + [Message(a.role, a.content + "\n" + b.content, if images then a.images + b.images else a.images)] + ys, images)
    decreases |ys|
  {
    var joined := Join(a, b, images);
    assert a.content + ['\n'] + b.content == a.content + "\n" + b.content;
    if ys == [] {
      assert xs + [a, b] + ys == xs + [a] + [b] && xs + [joined] + ys == xs + [joined];
      MergedSnoc(xs + [a], b, images);
      MergedSnoc(xs, a, images);
      MergedSnoc(xs, joined, images);
      AppendJoined(Merged(xs, images), a, b, images);
    } else {
      var init, last := ys[..|ys| - 1], ys[|ys| - 1];
      NeighboursMerge(xs, a, b, init, images);
      MoveLast(xs + [a, b], ys);
      MoveLast(xs + [joined], ys);
      MergedSnoc(xs + [a, b] + init, last, images);
      MergedSnoc(xs + [joined] + init, last, images);
    }
  }

  lemma RecentOfJoined(list: seq<Message>, joined: Message)
    requires |list| > MAX_HISTORY
    ensures Recent(Recent(list)[..MAX_HISTORY - 1] + [joined]) == Recent(list[..|list| - 1] + [joined])
  {
    var n := |list|;
    assert Recent(list)[..MAX_HISTORY - 1] == list[n - MAX_HISTORY..n - 1];
    assert Recent(list[..n - 1] + [joined]) == list[n - MAX_HISTORY..n - 1] + [joined];
  }

  lemma RecentOfLonger(list: seq<Message>, m: Message)
    requires |list| > MAX_HISTORY
    ensures Recent(Recent(list) + [m]) == Recent(list + [m])
  {
    var n := |list|;
    assert (Recent(list) + [m])[1..] == list[n - MAX_HISTORY + 1..] + [m];
    assert Recent(list + [m]) == list[n - MAX_HISTORY + 1..] + [m];
  }

  /** Dropping the oldest entries before adding gives the same recent list. */
  lemma RecentOfAppend(list: seq<Message>, m: Message, images: bool)
    ensures Recent(Append(Recent(list), m, images)) == Recent(Append(list, m, images))
  {
    if |list| > MAX_HISTORY {
      if list[|list| - 1].role == m.role {
        RecentOfJoined(list, Join(list[|list| - 1], m, images));
      } else {
        RecentOfLonger(list, m);
      }
    }
  }

  /** One message added: the last entry has grown by it, or it is the last entry; what came before stays but for the oldest. */
  lemma OneAdded(list: seq<Message>, m: Message)
    ensures var merges := list != [] && list[|list| - 1].role == m.role;
            var kept := if merges then list[..|list| - 1] else list;
            Recent(Append(list, m, true))
              == (if |kept| >= 40 then kept[|kept| - 39..] else kept)
                 + [if merges then Message(m.role, list[|list| - 1].content + "\n" + m.content, list[|list| - 1].images + m.images) else m]
  {
    assert "\n" == ['\n'];
  }

  /** `add` in a loop: the stored list after adding all of ms. */
  function Stored(list: seq<Message>, ms: seq<Message>): seq<Message>
    decreases |ms|
  {
    if ms == [] then list else Recent(Append(Stored(list, ms[..|ms| - 1]), ms[|ms| - 1], true))
  }

  lemma {:induction false} StoredIsRecent(ms: seq<Message>)
    ensures Stored([], ms) == Recent(Merged(ms, true))
  {
    if ms != [] {
      StoredIsRecent(ms[..|ms| - 1]);
      RecentOfAppend(Merged(ms[..|ms| - 1], true), ms[|ms| - 1], true);
    }
  }

  /** The bounded list is the last forty of the unbounded one. */
  lemma BoundedIsRecent(ms: seq<Message>)
    ensures var all := Merged(ms, true); Stored([], ms) == if |all| <= 40 then all else all[|all| - 40..]
    ensures Alternates(Stored([], ms))
  {
    StoredIsRecent(ms);
    MergedAlternates(ms, true);
  }

  // ── Hydration ─────────────────────────────────────────────────────────────

  /** The messages of rows read newest first. */
  function FromRows(rows: seq<Row>): seq<Message> {
    if rows == [] then []
    else
      FromRows(rows[1..])
      + (if rows[0].message != "" then [Message(User, rows[0].message, [])] else [])
      + (if rows[0].reply != "" then [Message(Assistant, rows[0].reply, [])] else [])
  }

  lemma {:induction false} FromRowsConcat(newer: seq<Row>, older: seq<Row>)
    ensures FromRows(newer + older) == FromRows(older) + FromRows(newer)
  {
    if newer == [] {
      assert newer + older == older;
    } else {
      FromRowsConcat(newer[1..], older);
      assert (newer + older)[1..] == newer[1..] + older;
      TurnLast(FromRows(older), FromRows(newer[1..]), newer[0]);
    }
  }

  lemma TurnLast(older: seq<Message>, newer: seq<Message>, row: Row)
    ensures var user := if row.message != "" then [Message(User, row.message, [])] else [];
            var reply := if row.reply != "" then [Message(Assistant, row.reply, [])] else [];
            older + newer + user + reply == older + (newer + user + reply)
  {
  }

  /** Rows come back oldest first; of each, what the user wrote, then the reply, and nothing for an absent text. */
  lemma RowsInOrder(newer: seq<Row>, row: Row, older: seq<Row>)
    ensures FromRows([]) == []
    ensures FromRows(newer + [row] + older)
      == FromRows(older)
         + (if row.message == "" then [] else [Message(User, row.message, [])])
         + (if row.reply == "" then [] else [Message(Assistant, row.reply, [])])
         + FromRows(newer)
  {
    FromRowsConcat(newer + [row], older);
    FromRowsConcat(newer, [row]);
    assert FromRows([row][1..]) == [];
    var user := if row.message == "" then [] else [Message(User, row.message, [])];
    var reply := if row.reply == "" then [] else [Message(Assistant, row.reply, [])];
    assert FromRows([row]) == user + reply;
    assert FromRows(older) + ((user + reply) + FromRows(newer)) == FromRows(older) + user + reply + FromRows(newer);
  }

  function Hydrated(hist: seq<Message>, seeded: seq<Message>): seq<Message> {
    Recent(Merged(hist + seeded, false))
  }

  /** Messages without their pictures. */
  function Texts(ms: seq<Message>): (r: seq<Message>)
    ensures |r| == |ms| && forall i :: 0 <= i < |r| ==> r[i] == ms[i].(images := [])
  {
    seq(|ms|, i requires 0 <= i < |ms| => ms[i].(images := []))
  }

  lemma TextsOfAppend(list: seq<Message>, m: Message, images: bool)
    ensures Texts(Append(list, m, images)) == Append(Texts(list), m.(images := []), false)
  {
  }

  lemma {:induction false} TextsOfMerged(ms: seq<Message>, images: bool)
    ensures Texts(Merged(ms, images)) == Merged(Texts(ms), false)
  {
    if ms != [] {
      TextsOfMerged(ms[..|ms| - 1], images);
      TextsOfAppend(Merged(ms[..|ms| - 1], images), ms[|ms| - 1], images);
      assert Texts(ms)[..|ms| - 1] == Texts(ms[..|ms| - 1]);
    }
  }

  lemma TextsOfRecent(list: seq<Message>)
    ensures Texts(Recent(list)) == Recent(Texts(list))
  {
  }

  /** A hydrated list alternates and is bounded, whatever the rows and the list already there. */
  lemma HydratedAlternates(hist: seq<Message>, seeded: seq<Message>)
    ensures Alternates(Hydrated(hist, seeded)) && |Hydrated(hist, seeded)| <= 40
    ensures var all := Merged(hist + seeded, false); Hydrated(hist, seeded) == if |all| <= 40 then all else all[|all| - 40..]
  {
    MergedAlternates(hist + seeded, false);
  }

  lemma MergedEndsWith(ms: seq<Message>, images: bool)
    requires ms != []
    ensures var m := Merged(ms, images); m != [] && m[|m| - 1].role == ms[|ms| - 1].role
  {
  }

  lemma MoveFirst(a: seq<Message>, list: seq<Message>)
    requires list != []
    ensures a + [list[0]] + list[1..] == a + list
  {
  }

  /** A message of another role than the last is added as it is. */
  lemma MergedOtherRole(ms: seq<Message>, m: Message)
    requires ms != [] ==> ms[|ms| - 1].role != m.role
    ensures Merged(ms + [m], false) == Merged(ms, false) + [m]
  {
    MergedSnoc(ms, m, false);
    if ms != [] {
      MergedEndsWith(ms, false);
    }
  }

  lemma {:induction false} MergedThenAlternating(ms: seq<Message>, list: seq<Message>)
    requires Alternates(list) && (ms != [] && list != [] ==> ms[|ms| - 1].role != list[0].role)
    ensures Merged(ms + list, false) == Merged(ms, false) + list
    decreases |list|
  {
    if list == [] {
      assert ms + list == ms;
    } else {
      var next := ms + [list[0]];
      MergedOtherRole(ms, list[0]);
      MergedThenAlternating(next, list[1..]);
      MoveFirst(ms, list);
      MoveFirst(Merged(ms, false), list);
    }
  }

  /** After any messages, an alternating list keeps its entries, but for merging the first. */
  lemma MergedOfAlternating(hist: seq<Message>, list: seq<Message>)
    requires Alternates(list) && list != []
    ensures Merged(hist + list, false) == Append(Merged(hist, false), list[0], false) + list[1..]
  {
    MergedThenAlternating(hist + [list[0]], list[1..]);
    MergedSnoc(hist, list[0], false);
    MoveFirst(hist, list);
  }

  /** The last forty of a longer list, when hydration merges its first entry into the database's last. */
  predicate SeamMerges(hist: seq<Message>, list: seq<Message>) {
    |list| > MAX_HISTORY && hist != [] && hist[|hist| - 1].role == list[|list| - MAX_HISTORY].role
  }

  lemma RecentOfLong(hist: seq<Message>, list: seq<Message>)
    requires Alternates(list) && |list| > MAX_HISTORY
    ensures Recent(Merged(hist + list, false)) == Recent(list)
  {
    MergedOfAlternating(hist, list);
    var m := Append(Merged(hist, false), list[0], false);
    assert Recent(m + list[1..]) == Recent(list);
  }

  lemma RecentOfTail(m: seq<Message>, tail: seq<Message>)
    requires m != [] && |tail| == MAX_HISTORY - 1
    ensures Recent(m + tail) == [m[|m| - 1]] + tail
  {
  }

  lemma RecentOfFull(hist: seq<Message>, list: seq<Message>)
    requires Alternates(list) && |list| == MAX_HISTORY
    ensures Recent(Merged(hist + list, false)) == list <==> !(hist != [] && hist[|hist| - 1].role == list[0].role)
  {
    MergedOfAlternating(hist, list);
    var m := Append(Merged(hist, false), list[0], false);
    RecentOfTail(m, list[1..]);
    var first := m[|m| - 1];
    assert [first] + list[1..] == list <==> first == list[0];
    if hist != [] {
      MergedEndsWith(hist, false);
      if hist[|hist| - 1].role == list[0].role {
        assert |first.content| > |list[0].content|;
      }
    }
  }

  lemma SeamDecides(hist: seq<Message>, list: seq<Message>)
    requires Alternates(list)
    ensures Recent(Merged(hist + Recent(list), false)) == Recent(Merged(hist + list, false)) <==> !SeamMerges(hist, list)
  {
    if |list| > MAX_HISTORY {
      RecentOfLong(hist, list);
      RecentOfFull(hist, Recent(list));
    }
  }

  lemma TextsOfHydrated(hist: seq<Message>, seeded: seq<Message>)
    ensures Texts(Hydrated(hist, seeded)) == Recent(Merged(Texts(hist) + Texts(seeded), false))
  {
    TextsOfRecent(Merged(hist + seeded, false));
    TextsOfMerged(hist + seeded, false);
    assert Texts(hist + seeded) == Texts(hist) + Texts(seeded);
  }

  lemma TextsOfAll(hist: seq<Message>, added: seq<Message>)
    ensures Merged(Texts(hist) + Texts(Merged(added, true)), false) == Merged(Texts(hist + added), false)
  {
    assert Texts(hist + added) == Texts(hist) + Texts(added);
    TextsOfMerged(added, true);
    MergeTailFirst(Texts(hist), Texts(added), false);
  }

  lemma SeamOfTexts(hist: seq<Message>, list: seq<Message>)
    ensures SeamMerges(Texts(hist), Texts(list)) == SeamMerges(hist, list)
  {
  }

  /**
   Hydration after any run of `add` gives the texts of everything, old turns and
   added ones, merged and cut to the last forty - except exactly when more than
   forty entries were added and the first of the forty kept has the role of the
   last database turn.
   */
  lemma HydrationIsComplete(hist: seq<Message>, added: seq<Message>)
    ensures Texts(Hydrated(hist, Stored([], added))) == Recent(Merged(Texts(hist + added), false))
      <==> !SeamMerges(hist, Merged(added, true))
  {
    var m := Merged(added, true);
    StoredIsRecent(added);
    MergedAlternates(added, true);
    TextsOfHydrated(hist, Recent(m));
    TextsOfRecent(m);
    TextsOfAll(hist, added);
    SeamOfTexts(hist, m);
    SeamDecides(Texts(hist), Texts(m));
  }

  // ── The store ─────────────────────────────────────────────────────────────

  /** One chat's list, shared by whoever holds it. */
  class MessageList {
    var items: seq<Message>

    constructor (items: seq<Message>)
      ensures this.items == items
    {
      this.items := items;
    }

    /** Merges a message into the last one of its role, or adds it. */
    method Put(role: Role, content: string, images: seq<string>)
      modifies this
      ensures items == Append(old(items), Message(role, content, images), true)
    {
      var n := |items|;
      if n > 0 && items[n - 1].role == role {
        var last := items[n - 1];
        assert last.images + [] == last.images;
        items := items[n - 1 := last.(content := last.content + ['\n'] + content)];
        if |images| > 0 {
          items := items[n - 1 := items[n - 1].(images := last.images + images)];
        }
      } else {
        items := items + [Message(role, content, images)];
      }
    }
  }

  class ChannelChatHistory {
    var store: map<string, MessageList>
    var hydrated: set<string>

    constructor ()
      ensures Valid() && store == map[] && hydrated == {}
    {
      store, hydrated := map[], {};
    }

    /** No two chats share a list. */
    ghost predicate Valid()
      reads this
    {
      forall k, j :: k in store && j in store && k != j ==> store[k] != store[j]
    }

    function History(key: string): seq<Message>
      reads this, store.Values
    {
      if key in store then store[key].items else []
    }

    /** One message, merged into the last or added, and the oldest dropped. A chat's list object stays. */
    method Add(key: string, role: Role, content: string, images: seq<string>)
      requires Valid()
      modifies this`store, if key in store then {store[key]} else {}
      ensures Valid() && key in store
      ensures store[key].items == Recent(Append(old(History(key)), Message(role, content, images), true))
      ensures if key in old(store) then store == old(store) else fresh(store[key]) && store == old(store)[key := store[key]]
    {
      var hist: MessageList;
      if key in store {
        hist := store[key];
      } else {
        hist := new MessageList([]);
      }
      hist.Put(role, content, images);
      if |hist.items| > MAX_HISTORY {
        hist.items := hist.items[|hist.items| - MAX_HISTORY..];
      }
      store := store[key := hist];
    }

    method Delete(key: string)
      requires Valid()
      modifies this
      ensures Valid() && store == old(store) - {key} && hydrated == old(hydrated) - {key}
    {
      store := store - {key};
      hydrated := hydrated - {key};
    }

    /** `getOrHydrate` up to the database read: the list it holds on to while waiting. */
    method BeginHydrate(key: string) returns (cached: bool, preSeeded: MessageList)
      requires Valid()
      modifies this`hydrated
      ensures hydrated == old(hydrated) + {key} && cached == (key in old(hydrated))
      ensures if key in store then preSeeded == store[key] else fresh(preSeeded) && preSeeded.items == []
    {
      cached := key in hydrated;
      if key in store {
        preSeeded := store[key];
      } else {
        preSeeded := new MessageList([]);
      }
      hydrated := hydrated + {key};
    }

    /** `getOrHydrate` after it: the rows newest first, or the error that left the store alone. */
    method FinishHydrate(key: string, preSeeded: MessageList, rows: Result<seq<Row>>) returns (r: seq<Message>)
      requires Valid()
      modifies this`store
      ensures Valid()
      ensures rows.Err? ==> store == old(store) && r == preSeeded.items
      ensures rows.Ok? ==> key in store && fresh(store[key]) && store == old(store)[key := store[key]]
      ensures rows.Ok? ==> store[key].items == Hydrated(FromRows(rows.value), preSeeded.items) == r
    {
      match rows {
        case Err(_) => return preSeeded.items;
        case Ok(found) =>
          var hist: seq<Message> := [];
          for i := |found| downto 0
            invariant hist == FromRows(found[i..])
          {
            assert found[i..][1..] == found[i + 1..];
            if found[i].message != "" {
              hist := hist + [Message(User, found[i].message, [])];
            }
            if found[i].reply != "" {
              hist := hist + [Message(Assistant, found[i].reply, [])];
            }
          }
          assert found[0..] == found;
          r := DedupeRoles(hist + preSeeded.items);
          if |r| > MAX_HISTORY {
            r := r[|r| - MAX_HISTORY..];
          }
          var merged := new MessageList(r);
          store := store[key := merged];
      }
    }
  }

  /** Messages added to a chat, one by one. */
  method AddAll(history: ChannelChatHistory, key: string, added: seq<Message>)
    requires history.Valid()
    modifies history`store, if key in history.store then {history.store[key]} else {}
    ensures history.Valid()
    ensures history.History(key) == Stored(old(history.History(key)), added)
    ensures key in old(history.store) ==> history.store == old(history.store)
    ensures key !in old(history.store) && key in history.store ==> fresh(history.store[key])
  {
    for i := 0 to |added|
      invariant history.Valid()
      invariant history.History(key) == Stored(old(history.History(key)), added[..i])
      invariant key in old(history.store) ==> history.store == old(history.store)
      invariant key !in old(history.store) && key in history.store ==> fresh(history.store[key])
    {
      assert added[..i + 1][..i] == added[..i];
      history.Add(key, added[i].role, added[i].content, added[i].images);
    }
    assert added[..|added|] == added;
  }

  /**
   Messages that arrive while the database is read are kept when the chat had a
   list before, and lost when it had none: then they went into a list that the
   hydrated one replaces.
   */
  method HydrateDuringAdds(history: ChannelChatHistory, key: string, added: seq<Message>, rows: seq<Row>)
    returns (r: seq<Message>)
    requires history.Valid() && key !in history.hydrated
    modifies history, if key in history.store then {history.store[key]} else {}
    ensures r == history.History(key)
    ensures key in old(history.store) ==>
              r == Hydrated(FromRows(rows), Stored(old(history.History(key)), added))
    ensures key !in old(history.store) ==> r == Hydrated(FromRows(rows), [])
  {
    var _, preSeeded := history.BeginHydrate(key);
    AddAll(history, key, added);
    r := history.FinishHydrate(key, preSeeded, Ok(rows));
  }
}
