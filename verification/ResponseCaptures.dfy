/** The bounded store of response bodies: what is tracked, what is evicted, and what of
a text is kept. Whether a response is chat is decided by the classifier and comes in
as a parameter. */
module ResponseCaptures {

  import opened Options
  import opened Recency

  type Id = nat

  const MAX_BODY_CHARS: nat := 2_000_000
  const MAX_TRACKED: nat := 256
  const MAX_CLOSED: nat := 32

  /** The last `n` elements. */
  function Tail<T>(s: seq<T>, n: nat): seq<T> {
    if |s| <= n then s else s[|s| - n..]
  }

  /** Cutting early is cutting late. */
  lemma TailOfTail<T>(s: seq<T>, more: seq<T>, n: nat)
    ensures Tail(Tail(s, n) + more, n) == Tail(s + more, n)
  {}

  // -- Eviction on values -----------------------------------------------------------------------

  /** A tracked response as the eviction policy sees it, stamped with its start. */
  datatype Response = Response(id: Id, chat: bool)

  type Entry = Stamped<Response>

  function NonChat(es: seq<Entry>): nat {
    if es == [] then 0 else NonChat(es[..|es| - 1]) + if es[|es| - 1].item.chat then 0 else 1
  }

  /** Without its first `n` non-chat entries. */
  function DropNonChat(es: seq<Entry>, n: nat): seq<Entry>
    decreases |es|
  {
    if es == [] || n == 0 then es
    else if es[0].item.chat then [es[0]] + DropNonChat(es[1..], n)
    else DropNonChat(es[1..], n - 1)
  }

  /** What trimming leaves. */
  function Trim(es: seq<Entry>): seq<Entry> {
    if |es| <= MAX_TRACKED then es
    else
      var rest := DropNonChat(es, |es| - MAX_TRACKED + 1);
      if |rest| > MAX_TRACKED then DropOldest(rest, |rest| - MAX_TRACKED) else rest
  }

  lemma {:induction false} NonChatHead(es: seq<Entry>)
    requires es != []
    ensures NonChat(es) == NonChat(es[1..]) + if es[0].item.chat then 0 else 1
  {
    if |es| > 1 {
      NonChatHead(es[..|es| - 1]);
      assert es[..|es| - 1][1..] == es[1..][..|es| - 2];
    } else {
      assert es[..0] == [] && es[1..] == [];
    }
  }

  lemma {:induction false} DropNonChatKeepsChat(es: seq<Entry>, n: nat)
    ensures var rest := DropNonChat(es, n);
      && Subsequence(rest, es)
      && |rest| == |es| - (if NonChat(es) < n then NonChat(es) else n)
      && NonChat(rest) == (if NonChat(es) < n then 0 else NonChat(es) - n)
      && forall e :: e in es && e.item.chat ==> e in rest
    decreases |es|
  {
    if es == [] {
    } else if n == 0 {
      SubsequenceOfItself(es);
    } else {
      NonChatHead(es);
      var rest := DropNonChat(es, n);
      if es[0].item.chat {
        DropNonChatKeepsChat(es[1..], n);
        assert rest[1..] == DropNonChat(es[1..], n);
        NonChatHead(rest);
      } else {
        DropNonChatKeepsChat(es[1..], n - 1);
      }
    }
  }

  predicate DistinctIds(es: seq<Entry>) {
    forall i, j :: 0 <= i < j < |es| ==> es[i].item.id != es[j].item.id
  }

  /** An entry stays if and only if it is chat or enough others come before it. */
  lemma {:induction false} KeptIff(es: seq<Entry>, n: nat, i: nat)
    requires DistinctIds(es) && i < |es|
    ensures es[i] in DropNonChat(es, n) <==> es[i].item.chat || NonChat(es[..i]) >= n
    decreases |es|
  {
    hide DropNonChat, NonChat, DistinctIds;
    var rest := es[1..];
    FirstDrop(es, n);
    if n == 0 {
      assert es[i] in es;
    } else if i == 0 {
      NoNonChatYet(es[..0]);
      HeadIsAlone(es, n);
      HeadIsAlone(es, n - 1);
    } else {
      assert rest[..i - 1] == es[..i][1..] && es[..i][0] == es[0];
      NonChatHead(es[..i]);
      TailIsDistinct(es, i);
      KeptIff(rest, n, i - 1);
      KeptIff(rest, n - 1, i - 1);
    }
  }

  lemma FirstDrop(es: seq<Entry>, n: nat)
    requires es != []
    ensures DropNonChat(es, n) ==
      if n == 0 then es
      else if es[0].item.chat then [es[0]] + DropNonChat(es[1..], n)
      else DropNonChat(es[1..], n - 1)
  {}

  lemma NoNonChatYet(es: seq<Entry>)
    requires es == []
    ensures NonChat(es) == 0
  {}

  lemma TailIsDistinct(es: seq<Entry>, i: nat)
    requires DistinctIds(es) && 0 < i < |es|
    ensures DistinctIds(es[1..]) && es[1..][i - 1] == es[i] && es[i] != es[0]
  {}

  lemma HeadIsAlone(es: seq<Entry>, n: nat)
    requires DistinctIds(es) && es != []
    ensures es[0] !in DropNonChat(es[1..], n)
  {
    var rest := es[1..];
    DropNonChatKeepsChat(rest, n);
    SelectedAreMembers(DropNonChat(rest, n), rest);
    assert forall k :: 0 <= k < |rest| ==> rest[k] == es[k + 1];
  }

  lemma {:induction false} SelectedAreMembers(part: seq<Entry>, whole: seq<Entry>)
    requires Subsequence(part, whole)
    ensures forall e :: e in part ==> e in whole
    decreases |whole|
  {
    if part != [] {
      assert whole == [whole[0]] + whole[1..] && part == [part[0]] + part[1..];
      if part[0] == whole[0] && Subsequence(part[1..], whole[1..]) {
        SelectedAreMembers(part[1..], whole[1..]);
      } else {
        SelectedAreMembers(part, whole[1..]);
      }
    }
  }

  /** What goes is no younger than any other response that stays, chat aside. */
  predicate ByAge(es: seq<Entry>, n: nat) {
    forall i, j ::
      0 <= i < |es| && 0 <= j < |es| && !es[i].item.chat && !es[j].item.chat
      && es[i] !in DropNonChat(es, n) && es[j] in DropNonChat(es, n) ==>
      es[i].at <= es[j].at
  }

  predicate InOrderOfStart(es: seq<Entry>) {
    forall i, j :: 0 <= i < j < |es| && !es[i].item.chat && !es[j].item.chat ==> es[i].at <= es[j].at
  }

  lemma {:induction false} NonChatGrows(es: seq<Entry>, i: nat, j: nat)
    requires i <= j <= |es|
    ensures NonChat(es[..i]) <= NonChat(es[..j])
    ensures i < j && !es[i].item.chat ==> NonChat(es[..i]) < NonChat(es[..j])
    decreases j
  {
    if i < j {
      assert es[..j][..j - 1] == es[..j - 1];
      NonChatGrows(es, i, j - 1);
    }
  }

  /** However many go, the oldest non-chat responses go first if and only if those responses
  stand in order of start. */
  lemma OldestNonChatFirstIff(es: seq<Entry>)
    requires DistinctIds(es)
    ensures (forall n: nat :: ByAge(es, n)) <==> InOrderOfStart(es)
  {
    hide DropNonChat, NonChat, DistinctIds;
    if InOrderOfStart(es) {
      forall n: nat
        ensures ByAge(es, n)
      {
        forall i, j | 0 <= i < |es| && 0 <= j < |es| && !es[i].item.chat && !es[j].item.chat
            && es[i] !in DropNonChat(es, n) && es[j] in DropNonChat(es, n)
          ensures es[i].at <= es[j].at
        {
          KeptIff(es, n, i);
          KeptIff(es, n, j);
          if j < i {
            NonChatGrows(es, j, i);
          }
        }
      }
    } else {
      var i, j :| 0 <= i < j < |es| && !es[i].item.chat && !es[j].item.chat && es[i].at > es[j].at;
      var n := NonChat(es[..i]) + 1;
      KeptIff(es, n, i);
      KeptIff(es, n, j);
      NonChatGrows(es, i, j);
      assert !ByAge(es, n);
    }
  }

  /** A response registered again keeps its place and gets a later start, so it can go before
  an older one that stands after it. */
  lemma ReRegisteredGoesFirst()
    ensures var es := [Stamped(Response(0, false), 9.0), Stamped(Response(1, false), 1.0)];
      DistinctIds(es) && DropNonChat(es, 1) == [Stamped(Response(1, false), 1.0)] && !InOrderOfStart(es)
  {
    var es := [Stamped(Response(0, false), 9.0), Stamped(Response(1, false), 1.0)];
    assert es[1..] == [es[1]];
    assert es[0].at > es[1].at;
  }

  /** The eviction policy: at most 256 stay, in their order; a chat response goes only
  if no other response is left, and then the oldest go. */
  lemma TrimPolicy(es: seq<Entry>)
    ensures var kept := Trim(es);
      && |kept| <= 256 && Subsequence(kept, es)
      && (|es| <= 256 ==> kept == es)
      && (forall d :: d in es && d.item.chat && d !in kept ==> |kept| == MAX_TRACKED && NonChat(kept) == 0)
      && (forall d, k :: d in es && d.item.chat && d !in kept && k in kept ==> d.at <= k.at)
  {
    hide Subsequence, NonChat, DropNonChat, DropOldest;
    var kept := Trim(es);
    if |es| <= MAX_TRACKED {
      SubsequenceOfItself(es);
    } else {
      var n := |es| - MAX_TRACKED + 1;
      var rest := DropNonChat(es, n);
      DropNonChatKeepsChat(es, n);
      if |rest| > MAX_TRACKED {
        DropOldestIsByAge(rest, |rest| - MAX_TRACKED);
        SubsequenceIsTransitive(kept, rest, es);
        NoNonChat(kept, rest);
      }
    }
  }

  lemma {:induction false} NoNonChat(part: seq<Entry>, whole: seq<Entry>)
    requires Subsequence(part, whole) && NonChat(whole) == 0
    ensures NonChat(part) == 0
    decreases |whole|
  {
    if part != [] {
      NonChatHead(whole);
      if part[0] == whole[0] && Subsequence(part[1..], whole[1..]) {
        NonChatHead(part);
        NoNonChat(part[1..], whole[1..]);
      } else {
        NoNonChat(part, whole[1..]);
      }
    }
  }

  /** One response over the limit: two non-chat responses make room if there are two,
  one if there is one, and otherwise the oldest chat response. */
  lemma OneTooMany(es: seq<Entry>)
    requires |es| == MAX_TRACKED + 1
    ensures NonChat(es) >= 2 ==> |Trim(es)| == MAX_TRACKED - 1
    ensures NonChat(es) == 1 ==> |Trim(es)| == MAX_TRACKED
    ensures NonChat(es) == 0 ==> Trim(es) == RemoveAt(es, Oldest(es))
  {
    hide NonChat, DropNonChat, Subsequence, DropOldest;
    DropNonChatKeepsChat(es, 2);
    if NonChat(es) == 0 {
      NothingToDrop(es, 2);
      OneOldestLess(es, 1);
      NoneTooMany(RemoveAt(es, Oldest(es)));
    }
    if NonChat(es) >= 2 {
      assert |DropNonChat(es, 2)| == MAX_TRACKED - 1;
    }
  }

  lemma {:induction false} NothingToDrop(es: seq<Entry>, n: nat)
    requires NonChat(es) == 0
    ensures DropNonChat(es, n) == es
    decreases |es|
  {
    if es != [] && n > 0 {
      NonChatHead(es);
      NothingToDrop(es[1..], n);
    }
  }

  // -- The classes ---------------------------------------------------------------------------------

  class CapturedResponse {
    const requestId: Id
    const startedAt: real
    const chat: bool
    var text: string
    var chunks: nat
    var bytes: nat
    var lastChunkAt: real
    var streamActive: bool
    var streamClosed: bool

    // Everything accepted so far.
    ghost var received: string

    ghost predicate Valid()
      reads this
    {
      text == Tail(received, MAX_BODY_CHARS) && bytes == |received|
    }

    function ToEntry(): Entry {
      Stamped(Response(requestId, chat), startedAt)
    }

    constructor (requestId: Id, startedAt: real, chat: bool)
      ensures Valid() && received == "" && !streamClosed
      ensures ToEntry() == Stamped(Response(requestId, chat), startedAt)
    {
      this.requestId, this.startedAt, this.chat := requestId, startedAt, chat;
      text, received, chunks, bytes := "", "", 0, 0;
      lastChunkAt, streamActive, streamClosed := startedAt, true, false;
    }

    method Append(chunk: string, now: real)
      requires Valid()
      modifies this
      ensures Valid() && received == old(received) + chunk && streamClosed == old(streamClosed)
      ensures chunks == old(chunks) + if chunk == "" then 0 else 1
      ensures lastChunkAt == if chunk == "" then old(lastChunkAt) else now
      ensures streamActive == (old(streamActive) || chunk != "")
    {
      TailOfTail(received, chunk, MAX_BODY_CHARS);
      if chunk == "" {
        assert received + chunk == received;
        return;
      }
      text := text + chunk;
      if |text| > MAX_BODY_CHARS {
        text := text[|text| - MAX_BODY_CHARS..];
      }
      chunks := chunks + 1;
      bytes := bytes + |chunk|;
      lastChunkAt := now;
      streamActive := true;
      received := received + chunk;
    }

    method Close(now: real)
      requires Valid()
      modifies this
      ensures Valid() && received == old(received) && streamClosed && !streamActive
      ensures lastChunkAt == now && chunks == old(chunks)
    {
      streamActive := false;
      streamClosed := true;
      lastChunkAt := now;
    }
  }

  class ResponseCapture {
    // The dictionary by request id, in its order of insertion.
    var tracked: seq<CapturedResponse>
    var closed: seq<CapturedResponse>

    // Every chat response ever closed since the last reset.
    ghost var everClosed: seq<CapturedResponse>

    ghost predicate Valid()
      reads this, tracked
    {
      && |tracked| <= MAX_TRACKED
      && Distinct(tracked)
      && (forall c :: c in tracked ==> c.Valid())
      && closed == Tail(everClosed, MAX_CLOSED)
      && (forall c :: c in everClosed ==> c.chat && c !in tracked)
    }

    static predicate Distinct(cs: seq<CapturedResponse>) {
      forall i, j :: 0 <= i < j < |cs| ==> cs[i].requestId != cs[j].requestId
    }

    static function Entries(cs: seq<CapturedResponse>): (es: seq<Entry>)
      ensures |es| == |cs| && forall i :: 0 <= i < |es| ==> es[i] == cs[i].ToEntry()
    {
      if cs == [] then [] else Entries(cs[..|cs| - 1]) + [cs[|cs| - 1].ToEntry()]
    }

    /** The position of a request id, or the length if it is not tracked. */
    static function Find(cs: seq<CapturedResponse>, id: Id): (i: nat)
      ensures i <= |cs|
      ensures i < |cs| ==> cs[i].requestId == id
      ensures forall j :: 0 <= j < i ==> cs[j].requestId != id
    {
      if cs == [] then 0
      else if cs[0].requestId == id then 0
      else 1 + Find(cs[1..], id)
    }

    constructor ()
      ensures Valid() && tracked == [] && everClosed == []
    {
      tracked, closed, everClosed := [], [], [];
    }

    /** Registers a response, replacing one of the same id in place, and trims. */
    method BeginResponse(id: Id, now: real, chat: bool)
      requires Valid()
      modifies this`tracked
      ensures Valid()
      ensures var es, e, i := Entries(old(tracked)), Stamped(Response(id, chat), now), Find(old(tracked), id);
        Entries(tracked) == Trim(if i < |es| then es[i := e] else es + [e])
      ensures forall c :: c in tracked ==>
        if c.requestId == id then fresh(c) && c.received == "" else c in old(tracked)
    {
      hide Trim, Entries, Find;
      var cap := new CapturedResponse(id, now, chat);
      var with := Put(tracked, cap);
      tracked := TrimTracked(with);
    }

    /** The dictionary with one response put in. */
    static method Put(cs: seq<CapturedResponse>, cap: CapturedResponse) returns (with: seq<CapturedResponse>)
      requires Distinct(cs)
      ensures Distinct(with)
      ensures var es, e, i := Entries(cs), cap.ToEntry(), Find(cs, cap.requestId);
        Entries(with) == if i < |es| then es[i := e] else es + [e]
      ensures forall c :: c in with ==> if c.requestId == cap.requestId then c == cap else c in cs
    {
      var i := Find(cs, cap.requestId);
      if i < |cs| {
        with := cs[i := cap];
        assert Entries(with) == Entries(cs)[i := cap.ToEntry()];
      } else {
        with := cs + [cap];
        assert Entries(with) == Entries(cs) + [cap.ToEntry()];
      }
    }

    /** The trimming of the tracked responses. */
    static method TrimTracked(cs: seq<CapturedResponse>) returns (kept: seq<CapturedResponse>)
      requires Distinct(cs)
      ensures Entries(kept) == Trim(Entries(cs)) && |kept| <= MAX_TRACKED
      ensures Distinct(kept) && forall c :: c in kept ==> c in cs
    {
      hide Subsequence, NonChat, DropNonChat, DropOldest, Distinct, Entries;
      TrimPolicy(Entries(cs));
      kept := cs;
      if |cs| <= MAX_TRACKED {
        return;
      }
      var limit := |cs| - MAX_TRACKED + 1;
      kept := DropNonChatFrom(cs, limit);
      if |kept| > MAX_TRACKED {
        kept := DropOldestFrom(kept, |kept| - MAX_TRACKED);
      }
    }

    static method DropNonChatFrom(cs: seq<CapturedResponse>, limit: nat) returns (kept: seq<CapturedResponse>)
      requires Distinct(cs)
      ensures Entries(kept) == DropNonChat(Entries(cs), limit)
      ensures Distinct(kept) && forall c :: c in kept ==> c in cs
    {
      hide Distinct, Entries, DropNonChat;
      kept := [];
      var victims := 0;
      assert kept + cs == cs;
      for k := 0 to |cs|
        invariant victims <= limit
        invariant Distinct(kept + cs[k..]) && forall c :: c in kept ==> c in cs
        invariant Entries(kept) + DropNonChat(Entries(cs)[k..], limit - victims) == DropNonChat(Entries(cs), limit)
      {
        assert cs[k..] == [cs[k]] + cs[k + 1..];
        DropFrom(Entries(cs), k, limit - victims);
        if !cs[k].chat && victims < limit {
          victims := victims + 1;
          DistinctWithout(kept, cs[k], cs[k + 1..]);
        } else {
          KeepOne(kept, cs[k], cs[k + 1..], DropNonChat(Entries(cs)[k + 1..], limit - victims));
          kept := kept + [cs[k]];
        }
      }
      assert kept + cs[|cs|..] == kept;
      NothingLeft(Entries(cs), limit - victims);
    }

    static lemma KeepOne(
      a: seq<CapturedResponse>, c: CapturedResponse, b: seq<CapturedResponse>, rest: seq<Entry>
    )
      ensures (a + [c]) + b == a + ([c] + b)
      ensures Entries(a + [c]) + rest == Entries(a) + ([c.ToEntry()] + rest)
    {
      assert (a + [c])[..|a|] == a;
    }

    static lemma DistinctWithout(a: seq<CapturedResponse>, c: CapturedResponse, b: seq<CapturedResponse>)
      requires Distinct(a + ([c] + b))
      ensures Distinct(a + b)
    {
      var whole := a + ([c] + b);
      forall i, j | 0 <= i < j < |a + b|
        ensures (a + b)[i].requestId != (a + b)[j].requestId
      {
        assert (a + b)[i] == whole[if i < |a| then i else i + 1];
        assert (a + b)[j] == whole[if j < |a| then j else j + 1];
      }
    }

    static lemma DropFrom(es: seq<Entry>, k: nat, n: nat)
      requires k < |es|
      ensures DropNonChat(es[k..], n) ==
        if es[k].item.chat || n == 0 then [es[k]] + DropNonChat(es[k + 1..], n) else DropNonChat(es[k + 1..], n - 1)
    {
      assert es[k..][1..] == es[k + 1..] && es[k..][0] == es[k];
    }

    static lemma NothingLeft(es: seq<Entry>, n: nat)
      ensures DropNonChat(es[|es|..], n) == []
    {}

    static method DropOldestFrom(cs: seq<CapturedResponse>, excess: nat) returns (kept: seq<CapturedResponse>)
      requires Distinct(cs) && excess <= |cs|
      ensures Entries(kept) == DropOldest(Entries(cs), excess)
      ensures Distinct(kept) && forall c :: c in kept ==> c in cs
    {
      hide Entries, DropOldest, Distinct, RemoveAt;
      kept := cs;
      for k := 0 to excess
        invariant |kept| == |cs| - k && Distinct(kept) && forall c :: c in kept ==> c in cs
        invariant DropOldest(Entries(kept), excess - k) == DropOldest(Entries(cs), excess)
      {
        var oldest := FindOldest(Entries(kept));
        OneOldestLess(Entries(kept), excess - k);
        WithoutOne(kept, oldest);
        kept := RemoveAt(kept, oldest);
      }
      NoneTooMany(Entries(kept));
    }

    static lemma WithoutOne(cs: seq<CapturedResponse>, i: nat)
      requires i < |cs| && Distinct(cs)
      ensures var fewer := RemoveAt(cs, i);
        && |fewer| == |cs| - 1 && Distinct(fewer) && cs[i] !in fewer && (forall c :: c in fewer ==> c in cs)
        && Entries(fewer) == RemoveAt(Entries(cs), i)
    {
      hide Entries;
    }

    /** Appends to a tracked chat response; refuses anything else. */
    method AppendChunk(id: Id, chunk: string, now: real) returns (accepted: bool)
      requires Valid()
      modifies tracked
      ensures Valid()
      ensures var i := Find(tracked, id);
        && (accepted <==> i < |tracked| && tracked[i].chat && chunk != "")
        && (accepted ==> tracked[i].received == old(tracked[i].received) + chunk)
        && forall j :: 0 <= j < |tracked| && (j != i || !accepted) ==> tracked[j].received == old(tracked[j].received)
    {
      var i := Find(tracked, id);
      if i == |tracked| {
        return false;
      }
      if !tracked[i].chat {
        return false;
      }
      if chunk == "" {
        return false;
      }
      tracked[i].Append(chunk, now);
      return true;
    }

    /** Stops tracking a response, keeping it among the last 32 if it is chat. */
    method CloseResponse(id: Id, now: real) returns (cap: Option<CapturedResponse>)
      requires Valid()
      modifies this, tracked
      ensures Valid()
      ensures var i := Find(old(tracked), id);
        if i < |old(tracked)| then
          && cap == Some(old(tracked)[i]) && cap.value.streamClosed
          && tracked == RemoveAt(old(tracked), i)
          && everClosed == (if cap.value.chat then old(everClosed) + [cap.value] else old(everClosed))
        else cap == None && tracked == old(tracked) && everClosed == old(everClosed)
      ensures forall c :: c in old(tracked) ==> c.text == old(c.text)
    {
      hide Find, Distinct, RemoveAt, Tail, Entries;
      var i := Find(tracked, id);
      if i == |tracked| {
        return None;
      }
      var c := tracked[i];
      c.Close(now);
      if c.chat {
        Remember(c);
      }
      WithoutOne(tracked, i);
      tracked := RemoveAt(tracked, i);
      return Some(c);
    }

    /** Appends to the closed list, keeping its last 32. */
    method Remember(c: CapturedResponse)
      requires closed == Tail(everClosed, MAX_CLOSED)
      modifies this`closed, this`everClosed
      ensures closed == Tail(everClosed, MAX_CLOSED) && everClosed == old(everClosed) + [c]
    {
      TailOfTail(everClosed, [c], MAX_CLOSED);
      closed := closed + [c];
      if |closed| > MAX_CLOSED {
        closed := closed[|closed| - MAX_CLOSED..];
      }
      everClosed := everClosed + [c];
    }

    method Discard(id: Id)
      requires Valid()
      modifies this`tracked
      ensures Valid()
      ensures var i := Find(old(tracked), id);
        tracked == if i < |old(tracked)| then RemoveAt(old(tracked), i) else old(tracked)
    {
      var i := Find(tracked, id);
      if i < |tracked| {
        tracked := RemoveAt(tracked, i);
      }
    }

    method Reset()
      modifies this
      ensures Valid() && tracked == [] && closed == [] && everClosed == []
    {
      tracked, closed, everClosed := [], [], [];
    }

    /** The text to show: of the youngest tracked chat response that has any, or else of
    the last closed one that has any. */
    method GetResponseText() returns (text: string)
      requires Valid()
      ensures (exists i :: Shows(tracked, i) && text == tracked[i].text)
        || ((forall c :: c in tracked && c.chat ==> c.text == "")
            && ((text == "" && forall c :: c in closed ==> c.text == "")
                || exists i :: LastShown(closed, i) && text == closed[i].text))
    {
      var best: Option<nat> := None;
      for k := 0 to |tracked|
        invariant best.None? ==> forall i :: 0 <= i < k ==> !(tracked[i].chat && tracked[i].text != "")
        invariant best.Some? ==> best.value < k && tracked[best.value].chat && tracked[best.value].text != ""
        invariant best.Some? ==> forall i :: 0 <= i < k && tracked[i].chat && tracked[i].text != "" ==>
          && tracked[i].startedAt <= tracked[best.value].startedAt
          && (i < best.value ==> tracked[i].startedAt < tracked[best.value].startedAt)
      {
        if tracked[k].chat && tracked[k].text != "" {
          if best.None? || tracked[k].startedAt > tracked[best.value].startedAt {
            best := Some(k);
          }
        }
      }
      if best.Some? {
        assert Shows(tracked, best.value);
        return tracked[best.value].text;
      }
      text := "";
      for k := 0 to |closed|
        invariant text == "" ==> forall i :: 0 <= i < k ==> closed[i].text == ""
        invariant text == "" || exists i :: 0 <= i < k && LastShownAmong(closed, i, k) && text == closed[i].text
      {
        if closed[k].text != "" {
          text := closed[k].text;
          assert LastShownAmong(closed, k, k + 1);
        } else if text != "" {
          ghost var i :| 0 <= i < k && LastShownAmong(closed, i, k) && text == closed[i].text;
          assert LastShownAmong(closed, i, k + 1);
        }
      }
      if text != "" {
        ghost var i :| 0 <= i < |closed| && LastShownAmong(closed, i, |closed|) && text == closed[i].text;
        assert LastShown(closed, i);
      }
    }

    /** The first of the youngest chat responses that have text. */
    static ghost predicate Shows(cs: seq<CapturedResponse>, i: int)
      reads cs
    {
      && 0 <= i < |cs| && cs[i].chat && cs[i].text != ""
      && forall j :: 0 <= j < |cs| && cs[j].chat && cs[j].text != "" ==>
        cs[j].startedAt <= cs[i].startedAt && (j < i ==> cs[j].startedAt < cs[i].startedAt)
    }

    static ghost predicate LastShownAmong(cs: seq<CapturedResponse>, i: int, n: int)
      reads cs
    {
      0 <= i < n <= |cs| && cs[i].text != "" && forall j :: i < j < n ==> cs[j].text == ""
    }

    static ghost predicate LastShown(cs: seq<CapturedResponse>, i: int)
      reads cs
    {
      LastShownAmong(cs, i, |cs|)
    }
  }
}
