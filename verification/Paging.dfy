/** Reading a log page by page, taking the last id of each page as the next
    token, while messages may be put between pages. */
module Paging {
  import opened Ids
  import opened Messages
  import opened Query
  import opened MessageStore

  /** The page a client gets at the i-th read with a given token. */
  type Reader = (nat, Option<MessageId>) -> seq<Message>

  /** Reads its i-th page from `logs[i]`. */
  function ReaderOf(logs: seq<seq<Message>>, limit: int, order: Order): Reader
  {
    (i: nat, token: Option<MessageId>) => if i < |logs| then Page(logs[i], Options(limit, token, order)) else []
  }

  /** The token for the page after this one. */
  function EndOf(page: seq<Message>): Option<MessageId>
    requires page != []
  {
    Some(page[|page| - 1].id)
  }

  /** Everything delivered by the reads from the i-th to before the n-th, stopping
      at the first empty page. */
  function Walk(read: Reader, i: nat, n: nat, token: Option<MessageId>): seq<Message>
    decreases n - i
  {
    if i >= n then []
    else
      var page := read(i, token);
      if page == [] then [] else page + Walk(read, i + 1, n, EndOf(page))
  }

  /** The walk reaches an empty page before it runs out of reads. */
  predicate Finishes(read: Reader, i: nat, n: nat, token: Option<MessageId>)
    decreases n - i
  {
    && i < n
    && var page := read(i, token);
       page == [] || Finishes(read, i + 1, n, EndOf(page))
  }

  /** The states of one chat's log over time: messages are only added. */
  ghost predicate OnlyPuts(logs: seq<seq<Message>>)
  {
    && (forall i :: 0 <= i < |logs| ==> Sorted(logs[i]))
    && (forall i, j :: 0 <= i < j < |logs| ==> Includes(logs[j], logs[i]))
  }

  ghost predicate Includes(later: seq<Message>, earlier: seq<Message>)
  {
    forall m :: m in earlier ==> m in later
  }

  /** In strict reading order; in particular no id occurs twice. */
  predicate InReadingOrder(s: seq<Message>, order: Order)
  {
    forall i, j :: 0 <= i < j < |s| ==> After(order, s[j].id, s[i].id)
  }

  predicate IsAfter(m: Message, order: Order, token: Option<MessageId>)
  {
    token.Some? ==> After(order, m.id, token.value)
  }

  lemma InOrderFacts(log: seq<Message>, order: Order)
    requires Sorted(log)
    ensures InReadingOrder(InOrder(log, order), order)
    ensures forall m :: m in InOrder(log, order) <==> m in log
  {
    var ordered := InOrder(log, order);
    forall m ensures m in ordered <==> m in log {
      if m in log {
        var i :| 0 <= i < |log| && log[i] == m;
        assert order == Desc ==> ordered[|log| - 1 - i] == m;
      }
    }
  }

  lemma AfterIsTransitive(order: Order, a: MessageId, b: MessageId, c: MessageId)
    requires After(order, b, a) && After(order, c, b)
    ensures After(order, c, a)
  {
    if order == Asc {
      LessIsTransitive(a, b, c);
    } else {
      LessIsTransitive(c, b, a);
    }
  }

  lemma {:induction false} PassedSplits(ordered: seq<Message>, order: Order, token: Option<MessageId>)
    requires InReadingOrder(ordered, order)
    ensures forall i :: 0 <= i < |ordered| ==>
                          (i >= Passed(ordered, order, token) <==> IsAfter(ordered[i], order, token))
  {
    if token.Some? && ordered != [] {
      if After(order, ordered[0].id, token.value) {
        forall i | 0 <= i < |ordered| ensures IsAfter(ordered[i], order, token) {
          if i > 0 {
            AfterIsTransitive(order, token.value, ordered[0].id, ordered[i].id);
          }
        }
      } else {
        PassedSplits(ordered[1..], order, token);
        forall i | 0 < i < |ordered|
          ensures i >= Passed(ordered, order, token) <==> IsAfter(ordered[i], order, token)
        {
          assert ordered[1..][i - 1] == ordered[i];
        }
      }
    }
  }

  /** The page is the stretch of the ordered log that follows the token. */
  lemma PageIsAStretch(log: seq<Message>, options: Options)
    requires options.limit >= 1
    ensures var ordered := InOrder(log, options.order);
            var k := Passed(ordered, options.order, options.token);
            var page := Page(log, options);
            && k + |page| <= |ordered| && page == ordered[k..k + |page|]
            && |page| <= options.limit
            && (page == [] ==> k == |ordered|)
  {
  }

  /** A page holds messages after the token, in order, and passes over none. */
  lemma PageFacts(log: seq<Message>, options: Options)
    requires Sorted(log) && options.limit >= 1
    ensures var page := Page(log, options);
            && |page| <= options.limit
            && PageFits(page, log, options.token, options.order)
  {
    var ordered := InOrder(log, options.order);
    var k := Passed(ordered, options.order, options.token);
    var page := Page(log, options);
    InOrderFacts(log, options.order);
    PassedSplits(ordered, options.order, options.token);
    PageIsAStretch(log, options);
    StretchFacts(ordered, k, page, options.order);
    StretchMembers(ordered, k, page, log, options);
  }

  /** The page, written out: messages of the log after the token, in strictly ascending or
      descending order of ids, no more than the limit; and if one after the token is not on
      it, the page is full and all of it comes before that one. */
  lemma {:induction false} PageIsNext(log: seq<Message>, options: Options)
    requires Sorted(log) && options.limit >= 1
    ensures var page, token := Page(log, options), options.token;
            && |page| <= options.limit
            && (forall i, j :: 0 <= i < j < |page| ==>
                  if options.order == Asc then Less(page[i].id, page[j].id) else Less(page[j].id, page[i].id))
            && (forall m :: m in page ==>
                  && m in log
                  && (token.Some? ==>
                        if options.order == Asc then Less(token.value, m.id) else Less(m.id, token.value)))
            && (forall m :: m in log && m !in page
                            && (token.Some? ==>
                                  if options.order == Asc then Less(token.value, m.id) else Less(m.id, token.value)) ==>
                  && |page| == options.limit
                  && forall p :: p in page ==> if options.order == Asc then Less(p.id, m.id) else Less(m.id, p.id))
  {
    var page := Page(log, options);
    PageFacts(log, options);
    forall m | m in log && m !in page && IsAfter(m, options.order, options.token)
      ensures |page| == options.limit && forall p :: p in page ==> After(options.order, m.id, p.id)
    {
      LeftOutOfFullPage(log, options, m);
      ComesAfterAll(page, options.order, m);
    }
  }

  lemma {:induction false} LeftOutOfFullPage(log: seq<Message>, options: Options, m: Message)
    requires Sorted(log) && options.limit >= 1
    requires m in log && IsAfter(m, options.order, options.token) && m !in Page(log, options)
    ensures |Page(log, options)| == options.limit
  {
    var ordered := InOrder(log, options.order);
    var k := Passed(ordered, options.order, options.token);
    InOrderFacts(log, options.order);
    PassedSplits(ordered, options.order, options.token);
    var i :| 0 <= i < |ordered| && ordered[i] == m;
    assert m == ordered[k..][i - k];
  }

  lemma {:induction false} ComesAfterAll(page: seq<Message>, order: Order, m: Message)
    requires InReadingOrder(page, order) && page != [] && After(order, m.id, page[|page| - 1].id)
    ensures forall p :: p in page ==> After(order, m.id, p.id)
  {
    forall p | p in page ensures After(order, m.id, p.id) {
      var i :| 0 <= i < |page| && page[i] == p;
      if i < |page| - 1 {
        AfterIsTransitive(order, p.id, page[|page| - 1].id, m.id);
      }
    }
  }

  lemma StretchMembers(ordered: seq<Message>, k: nat, page: seq<Message>, log: seq<Message>, options: Options)
    requires k + |page| <= |ordered| && page == ordered[k..k + |page|]
    requires forall m :: m in ordered <==> m in log
    requires forall i :: 0 <= i < |ordered| ==> (i >= k <==> IsAfter(ordered[i], options.order, options.token))
    requires forall i :: k <= i < |ordered| ==>
                           page != [] && (ordered[i] in page
                                          || After(options.order, ordered[i].id, page[|page| - 1].id))
    ensures forall m :: m in page ==> m in log && IsAfter(m, options.order, options.token)
    ensures forall m :: m in log && IsAfter(m, options.order, options.token) ==>
                          page != [] && (m in page || After(options.order, m.id, page[|page| - 1].id))
  {
    forall m | m in page ensures m in log && IsAfter(m, options.order, options.token) {
      var i :| 0 <= i < |page| && page[i] == m;
      assert ordered[k + i] == m && m in ordered;
    }
    forall m | m in log && IsAfter(m, options.order, options.token)
      ensures page != [] && (m in page || After(options.order, m.id, page[|page| - 1].id))
    {
      var i :| 0 <= i < |ordered| && ordered[i] == m;
    }
  }

  lemma StretchFacts(ordered: seq<Message>, k: nat, page: seq<Message>, order: Order)
    requires InReadingOrder(ordered, order)
    requires k + |page| <= |ordered| && page == ordered[k..k + |page|]
    requires page == [] ==> k == |ordered|
    ensures InReadingOrder(page, order)
    ensures forall i :: k <= i < |ordered| ==>
                          page != [] && (ordered[i] in page || After(order, ordered[i].id, page[|page| - 1].id))
  {
    forall i, j | 0 <= i < j < |page| ensures After(order, page[j].id, page[i].id) {
      assert page[i] == ordered[k + i] && page[j] == ordered[k + j];
    }
    forall i | k <= i < |ordered|
      ensures page != [] && (ordered[i] in page || After(order, ordered[i].id, page[|page| - 1].id))
    {
      assert page != [];
      if i < k + |page| {
        assert page[i - k] == ordered[i];
      } else {
        assert page[|page| - 1] == ordered[k + |page| - 1];
      }
    }
  }

  /** Joining a page to what is read after its last message. */
  lemma JoinKeepsOrder(page: seq<Message>, rest: seq<Message>, order: Order)
    requires page != [] && InReadingOrder(page, order) && InReadingOrder(rest, order)
    requires forall m :: m in rest ==> After(order, m.id, page[|page| - 1].id)
    ensures InReadingOrder(page + rest, order)
  {
    forall i, j | 0 <= i < |page| && 0 <= j < |rest| ensures After(order, rest[j].id, page[i].id) {
      assert rest[j] in rest;
      if i < |page| - 1 {
        AfterIsTransitive(order, page[i].id, page[|page| - 1].id, rest[j].id);
      }
    }
  }

  /** What a page tells about the log it was read from. */
  ghost predicate PageFits(page: seq<Message>, log: seq<Message>, token: Option<MessageId>, order: Order)
  {
    && InReadingOrder(page, order)
    && (forall m :: m in page ==> m in log && IsAfter(m, order, token))
    && (forall m :: m in log && IsAfter(m, order, token) ==>
          page != [] && (m in page || After(order, m.id, page[|page| - 1].id)))
  }

  ghost predicate Delivers(delivered: seq<Message>, log: seq<Message>, token: Option<MessageId>, order: Order)
  {
    && InReadingOrder(delivered, order)
    && (forall m :: m in delivered ==> IsAfter(m, order, token) && m in log)
  }

  lemma DeliverPageAndRest(page: seq<Message>, rest: seq<Message>, first: seq<Message>, last: seq<Message>,
                           token: Option<MessageId>, order: Order)
    requires page != [] && PageFits(page, first, token, order) && Includes(last, first)
    requires Delivers(rest, last, EndOf(page), order)
    ensures Delivers(page + rest, last, token, order)
  {
    var end := page[|page| - 1];
    assert end in page;
    JoinKeepsOrder(page, rest, order);
    forall m | m in rest ensures IsAfter(m, order, token) {
      if token.Some? {
        AfterIsTransitive(order, token.value, end.id, m.id);
      }
    }
  }

  /** Every page of the reader fits the log it is read from. */
  ghost predicate ReadsFit(read: Reader, logs: seq<seq<Message>>, order: Order)
  {
    forall i: nat, token :: i < |logs| ==> PageFits(read(i, token), logs[i], token, order)
  }

  lemma {:induction false} ReaderFits(logs: seq<seq<Message>>, limit: int, order: Order)
    requires OnlyPuts(logs) && limit >= 1
    ensures ReadsFit(ReaderOf(logs, limit, order), logs, order)
  {
    var read := ReaderOf(logs, limit, order);
    forall i: nat, token | i < |logs| ensures PageFits(read(i, token), logs[i], token, order) {
      PageFacts(logs[i], Options(limit, token, order));
    }
  }

  /** Putting a page of the reader in front of what is read after it. */
  ghost predicate PagesDeliver(read: Reader, n: nat, last: seq<Message>, order: Order)
  {
    forall i: nat, token, rest ::
      i < n && read(i, token) != [] && Delivers(rest, last, EndOf(read(i, token)), order) ==>
        Delivers(read(i, token) + rest, last, token, order)
  }

  lemma {:induction false} WalkDelivers(read: Reader, i: nat, n: nat, last: seq<Message>, token: Option<MessageId>,
                                        order: Order)
    requires PagesDeliver(read, n, last, order)
    ensures Delivers(Walk(read, i, n, token), last, token, order)
    decreases n - i
  {
    if i < n && read(i, token) != [] {
      WalkDelivers(read, i + 1, n, last, EndOf(read(i, token)), order);
    }
  }

  lemma PageDelivers(page: seq<Message>, rest: seq<Message>, read: Reader, logs: seq<seq<Message>>, i: nat,
                     token: Option<MessageId>, order: Order)
    requires OnlyPuts(logs) && ReadsFit(read, logs, order) && i < |logs|
    requires page == read(i, token) && page != []
    requires Delivers(rest, logs[|logs| - 1], EndOf(page), order)
    ensures Delivers(page + rest, logs[|logs| - 1], token, order)
  {
    LaterIncludes(logs, i);
    PageFitsItsLog(read, logs, i, token, order);
    DeliverPageAndRest(page, rest, logs[i], logs[|logs| - 1], token, order);
  }

  lemma PageFitsItsLog(read: Reader, logs: seq<seq<Message>>, i: nat, token: Option<MessageId>, order: Order)
    requires ReadsFit(read, logs, order) && i < |logs|
    ensures PageFits(read(i, token), logs[i], token, order)
  {
  }

  lemma LaterIncludes(logs: seq<seq<Message>>, i: nat)
    requires OnlyPuts(logs) && i < |logs|
    ensures Includes(logs[|logs| - 1], logs[i])
    ensures i + 1 < |logs| ==> Includes(logs[i + 1], logs[i])
  {
  }

  /** Whatever is put between pages, a walk never goes back or repeats a
      message, and delivers only messages of the log. */
  lemma WalkNeverRepeats(logs: seq<seq<Message>>, limit: int, token: Option<MessageId>, order: Order)
    requires OnlyPuts(logs) && limit >= 1 && logs != []
    ensures Delivers(Walk(ReaderOf(logs, limit, order), 0, |logs|, token), logs[|logs| - 1], token, order)
  {
    var read, last := ReaderOf(logs, limit, order), logs[|logs| - 1];
    ReaderFits(logs, limit, order);
    forall i: nat, t, rest | i < |logs| && read(i, t) != [] && Delivers(rest, last, EndOf(read(i, t)), order)
      ensures Delivers(read(i, t) + rest, last, t, order)
    {
      PageDelivers(read(i, t), rest, read, logs, i, t, order);
    }
    WalkDelivers(read, 0, |logs|, last, token, order);
  }

  ghost predicate Covers(delivered: seq<Message>, log: seq<Message>, token: Option<MessageId>, order: Order)
  {
    forall m :: m in log && IsAfter(m, order, token) ==> m in delivered
  }

  lemma CoverPageAndRest(page: seq<Message>, rest: seq<Message>, first: seq<Message>, second: seq<Message>,
                         token: Option<MessageId>, order: Order)
    requires page != [] && PageFits(page, first, token, order) && Includes(second, first)
    requires Covers(rest, second, EndOf(page), order)
    ensures Covers(page + rest, first, token, order)
  {
  }

  lemma {:induction false} FinishedWalkCovers(read: Reader, logs: seq<seq<Message>>, i: nat, token: Option<MessageId>,
                                              order: Order)
    requires OnlyPuts(logs) && ReadsFit(read, logs, order)
    requires i < |logs| && Finishes(read, i, |logs|, token)
    ensures Covers(Walk(read, i, |logs|, token), logs[i], token, order)
    decreases |logs| - i
  {
    var page := read(i, token);
    assert PageFits(page, logs[i], token, order);
    if page != [] {
      var end := EndOf(page);
      FinishedWalkCovers(read, logs, i + 1, end, order);
      LaterIncludes(logs, i);
      CoverPageAndRest(page, Walk(read, i + 1, |logs|, end), logs[i], logs[i + 1], token, order);
    }
  }

  /** A walk that reaches an empty page has delivered every message that was
      in the log when it began, after the token it began with. */
  lemma {:induction false} FinishedWalkMissesNothing(logs: seq<seq<Message>>, limit: int, token: Option<MessageId>,
                                                     order: Order)
    requires OnlyPuts(logs) && limit >= 1 && logs != []
    requires Finishes(ReaderOf(logs, limit, order), 0, |logs|, token)
    ensures Covers(Walk(ReaderOf(logs, limit, order), 0, |logs|, token), logs[0], token, order)
  {
    ReaderFits(logs, limit, order);
    FinishedWalkCovers(ReaderOf(logs, limit, order), logs, 0, token, order);
  }

  /** Each message is delivered, or comes after everything delivered so far. */
  ghost predicate CoversSoFar(delivered: seq<Message>, log: seq<Message>, token: Option<MessageId>, order: Order)
  {
    forall m :: m in log && IsAfter(m, order, token) ==>
                  m in delivered || (delivered != [] && After(order, m.id, delivered[|delivered| - 1].id))
  }

  lemma CoverSoFarPageAndRest(page: seq<Message>, rest: seq<Message>, first: seq<Message>, second: seq<Message>,
                              token: Option<MessageId>, order: Order)
    requires page != [] && PageFits(page, first, token, order) && Includes(second, first)
    requires CoversSoFar(rest, second, EndOf(page), order)
    ensures CoversSoFar(page + rest, first, token, order)
  {
  }

  lemma {:induction false} WalkCoversSoFar(read: Reader, logs: seq<seq<Message>>, i: nat, token: Option<MessageId>,
                                           order: Order)
    requires OnlyPuts(logs) && ReadsFit(read, logs, order) && i < |logs|
    ensures CoversSoFar(Walk(read, i, |logs|, token), logs[i], token, order)
    decreases |logs| - i
  {
    var page := read(i, token);
    assert PageFits(page, logs[i], token, order);
    if page != [] && i + 1 < |logs| {
      WalkCoversSoFar(read, logs, i + 1, EndOf(page), order);
      LaterIncludes(logs, i);
      CoverSoFarPageAndRest(page, Walk(read, i + 1, |logs|, EndOf(page)), logs[i], logs[i + 1], token, order);
    } else if page != [] {
      assert Walk(read, i, |logs|, token) == page + [];
    }
  }

  /** Whether a walk has ended or not, each message that was there when it began,
      after the token it began with, is delivered or comes after the last one
      delivered; so going on never skips it. */
  lemma {:induction false} WalkSkipsNothing(logs: seq<seq<Message>>, limit: int, token: Option<MessageId>, order: Order)
    requires OnlyPuts(logs) && limit >= 1 && logs != []
    ensures CoversSoFar(Walk(ReaderOf(logs, limit, order), 0, |logs|, token), logs[0], token, order)
  {
    ReaderFits(logs, limit, order);
    WalkCoversSoFar(ReaderOf(logs, limit, order), logs, 0, token, order);
  }

  lemma {:induction false} PassedOfElement(ordered: seq<Message>, order: Order, i: nat)
    requires InReadingOrder(ordered, order) && i < |ordered|
    ensures Passed(ordered, order, Some(ordered[i].id)) == i + 1
  {
    var token := Some(ordered[i].id);
    PassedSplits(ordered, order, token);
    LessIsTotal(ordered[i].id, ordered[i].id);
    if i + 1 < |ordered| {
      assert After(order, ordered[i + 1].id, ordered[i].id);
    }
  }

  /** The page is the next stretch of the ordered log, and empty only at its end. */
  predicate IsStretch(page: seq<Message>, ordered: seq<Message>, order: Order, token: Option<MessageId>)
  {
    var k := Passed(ordered, order, token);
    && k + |page| <= |ordered| && page == ordered[k..k + |page|]
    && (page == [] ==> k == |ordered|)
  }

  /** Reading on after the last message of a page goes on right behind it. */
  lemma {:induction false} StretchGoesOn(page: seq<Message>, ordered: seq<Message>, order: Order,
                                         token: Option<MessageId>)
    requires InReadingOrder(ordered, order) && IsStretch(page, ordered, order, token) && page != []
    ensures Passed(ordered, order, EndOf(page)) == Passed(ordered, order, token) + |page|
    ensures var k := Passed(ordered, order, token); ordered[k..] == page + ordered[k + |page|..]
  {
    var k := Passed(ordered, order, token);
    PassedOfElement(ordered, order, k + |page| - 1);
    SplitStretch(ordered, k, k + |page|);
  }

  lemma SplitStretch(ordered: seq<Message>, i: nat, j: nat)
    requires i < j <= |ordered|
    ensures ordered[i..j][j - i - 1] == ordered[j - 1]
    ensures ordered[i..] == ordered[i..j] + ordered[j..]
  {
  }

  /** What is left to read after a token. */
  type Rest = Option<MessageId> -> seq<Message>

  function RestOf(ordered: seq<Message>, order: Order): Rest
  {
    (token: Option<MessageId>) => ordered[Passed(ordered, order, token)..]
  }

  /** Each page is the next part of what is left after its token. */
  ghost predicate PagesFollow(read: Reader, n: nat, rest: Rest)
  {
    forall i: nat, token :: i < n ==> PageFollows(read(i, token), rest, token)
  }

  predicate PageFollows(page: seq<Message>, rest: Rest, token: Option<MessageId>)
  {
    rest(token) == if page == [] then [] else page + rest(EndOf(page))
  }

  lemma {:induction false} UndisturbedWalk(read: Reader, rest: Rest, i: nat, n: nat, token: Option<MessageId>)
    requires PagesFollow(read, n, rest)
    requires n - i > |rest(token)|
    ensures Finishes(read, i, n, token)
    ensures Walk(read, i, n, token) == rest(token)
    decreases n - i
  {
    var page := read(i, token);
    assert PageFollows(page, rest, token);
    if page != [] {
      UndisturbedWalk(read, rest, i + 1, n, EndOf(page));
    }
  }

  lemma StretchIsNext(page: seq<Message>, ordered: seq<Message>, token: Option<MessageId>, order: Order)
    requires InReadingOrder(ordered, order) && IsStretch(page, ordered, order, token)
    ensures PageFollows(page, RestOf(ordered, order), token)
  {
    if page != [] {
      StretchGoesOn(page, ordered, order, token);
    }
  }

  lemma {:induction false} ReaderFollows(log: seq<Message>, logs: seq<seq<Message>>, limit: int, order: Order)
    requires Sorted(log) && limit >= 1
    requires forall i :: 0 <= i < |logs| ==> logs[i] == log
    ensures PagesFollow(ReaderOf(logs, limit, order), |logs|, RestOf(InOrder(log, order), order))
  {
    var read, rest := ReaderOf(logs, limit, order), RestOf(InOrder(log, order), order);
    InOrderFacts(log, order);
    forall j: nat, t | j < |logs| ensures PageFollows(read(j, t), rest, t) {
      PageFollowsToken(log, limit, t, order);
    }
  }

  lemma PageFollowsToken(log: seq<Message>, limit: int, token: Option<MessageId>, order: Order)
    requires limit >= 1 && InReadingOrder(InOrder(log, order), order)
    ensures PageFollows(Page(log, Options(limit, token, order)), RestOf(InOrder(log, order), order), token)
  {
    PageIsAStretch(log, Options(limit, token, order));
    StretchIsNext(Page(log, Options(limit, token, order)), InOrder(log, order), token, order);
  }

  /** With nothing put in between, a walk ends after at most one page more than
      there are messages, and its pages together are the rest of the log. */
  lemma {:induction false} UndisturbedWalkIsTheLog(log: seq<Message>, logs: seq<seq<Message>>, limit: int,
                                                   token: Option<MessageId>, order: Order)
    requires Sorted(log) && limit >= 1
    requires forall i :: 0 <= i < |logs| ==> logs[i] == log
    requires |logs| > |InOrder(log, order)| - Passed(InOrder(log, order), order, token)
    ensures Finishes(ReaderOf(logs, limit, order), 0, |logs|, token)
    ensures Walk(ReaderOf(logs, limit, order), 0, |logs|, token)
            == InOrder(log, order)[Passed(InOrder(log, order), order, token)..]
  {
    ReaderFollows(log, logs, limit, order);
    UndisturbedWalk(ReaderOf(logs, limit, order), RestOf(InOrder(log, order), order), 0, |logs|, token);
  }

  /** Reading a whole chat from the start yields its log, or its reverse. */
  lemma {:induction false} WholeLogIsDelivered(log: seq<Message>, logs: seq<seq<Message>>, limit: int, order: Order)
    requires Sorted(log) && limit >= 1
    requires |logs| > |log| && forall i :: 0 <= i < |logs| ==> logs[i] == log
    ensures Finishes(ReaderOf(logs, limit, order), 0, |logs|, None)
    ensures Walk(ReaderOf(logs, limit, order), 0, |logs|, None) == if order == Asc then log else Reverse(log)
  {
    UndisturbedWalkIsTheLog(log, logs, limit, None, order);
  }

  // ----- Reading backwards while newer messages are put -----

  /** What was put since is newer than all that was there. */
  ghost predicate OnlyNewer(later: seq<Message>, earlier: seq<Message>)
  {
    forall m, n :: m in later && m !in earlier && n in earlier ==> Less(n.id, m.id)
  }

  lemma {:induction false} SortedBySet(a: seq<Message>, b: seq<Message>)
    requires Sorted(a) && Sorted(b) && forall m :: m in a <==> m in b
    ensures a == b
  {
    SameEmptiness(a, b);
    if a != [] {
      SameLast(a, b);
      var x, y := a[..|a| - 1], b[..|b| - 1];
      SortedWithoutLast(a);
      SortedWithoutLast(b);
      forall m ensures m in x <==> m in y {
        assert m in a <==> m in b;
      }
      SortedBySet(x, y);
      assert a == x + [a[|a| - 1]] && b == y + [b[|b| - 1]];
    }
  }

  lemma SameEmptiness(a: seq<Message>, b: seq<Message>)
    requires forall m :: m in a <==> m in b
    ensures a == [] <==> b == []
  {
    if a != [] {
      assert a[0] in a;
    }
    if b != [] {
      assert b[0] in b;
    }
  }

  lemma SortedWithoutLast(log: seq<Message>)
    requires Sorted(log) && log != []
    ensures Sorted(log[..|log| - 1])
    ensures forall m :: m in log[..|log| - 1] <==> m in log && m != log[|log| - 1]
  {
    var front, last := log[..|log| - 1], log[|log| - 1];
    assert log == front + [last];
    forall m | m in front ensures m != last {
      var i :| 0 <= i < |front| && front[i] == m;
      LessIsTotal(log[i].id, last.id);
    }
  }

  lemma SameLast(a: seq<Message>, b: seq<Message>)
    requires Sorted(a) && Sorted(b) && a != [] && b != [] && forall m :: m in a <==> m in b
    ensures a[|a| - 1] == b[|b| - 1]
  {
    var x, y := a[|a| - 1], b[|b| - 1];
    assert x in b && y in a;
    var i :| 0 <= i < |b| && b[i] == x;
    var j :| 0 <= j < |a| && a[j] == y;
    LessIsTotal(x.id, y.id);
  }

  /** What the filter lets through determines the page. */
  lemma PageOfKept(log: seq<Message>, options: Options)
    requires Sorted(log)
    ensures Sorted(Kept(log, options))
    ensures var rest := InOrder(Kept(log, options), options.order);
            Page(log, options) == if 0 <= options.limit < |rest| then rest[..options.limit] else rest
  {
    KeptIsTheRest(log, options);
  }

  lemma {:induction false} SameKept(earlier: seq<Message>, later: seq<Message>, options: Options)
    requires Sorted(Kept(earlier, options)) && Sorted(Kept(later, options)) && Includes(later, earlier)
    requires options.token.Some?
    requires forall m :: m in later && m !in earlier ==> !After(options.order, m.id, options.token.value)
    ensures Kept(later, options) == Kept(earlier, options)
  {
    KeptIsInLog(earlier, options);
    KeptIsInLog(later, options);
    forall m ensures m in Kept(later, options) <==> m in Kept(earlier, options) {
    }
    SortedBySet(Kept(later, options), Kept(earlier, options));
  }

  /** After an id that was there, a log and one with newer messages put read the same backwards. */
  lemma {:induction false} NewerMessagesDoNotShow(earlier: seq<Message>, later: seq<Message>, limit: int,
                                                  token: MessageId)
    requires Sorted(earlier) && Sorted(later) && Includes(later, earlier) && OnlyNewer(later, earlier)
    requires token in IdsIn(earlier)
    ensures Page(later, Options(limit, Some(token), Desc)) == Page(earlier, Options(limit, Some(token), Desc))
  {
    var options := Options(limit, Some(token), Desc);
    PageOfKept(earlier, options);
    PageOfKept(later, options);
    NewerAreNotAfter(earlier, later, token);
    SameKept(earlier, later, options);
  }

  lemma NewerAreNotAfter(earlier: seq<Message>, later: seq<Message>, token: MessageId)
    requires OnlyNewer(later, earlier) && token in IdsIn(earlier)
    ensures forall m :: m in later && m !in earlier ==> !After(Desc, m.id, token)
  {
    var i :| 0 <= i < |earlier| && earlier[i].id == token;
    forall m | m in later && m !in earlier ensures !After(Desc, m.id, token) {
      assert earlier[i] in earlier;
      LessIsTotal(earlier[i].id, m.id);
    }
  }

  /** The pages of a reader are the next parts of what is left, as long as it goes on
      from ids that it has been given. */
  ghost predicate PagesFollowIds(read: Reader, n: nat, rest: Rest, ids: set<MessageId>)
  {
    forall i: nat, token: Option<MessageId> :: i < n && (i == 0 || (token.Some? && token.value in ids)) ==>
                              && PageFollows(read(i, token), rest, token)
                              && (read(i, token) != [] ==> EndOf(read(i, token)).value in ids)
  }

  lemma {:induction false} WalkOnIds(read: Reader, rest: Rest, ids: set<MessageId>, i: nat, n: nat,
                                     token: Option<MessageId>)
    requires PagesFollowIds(read, n, rest, ids) && (i == 0 || (token.Some? && token.value in ids))
    requires n - i > |rest(token)|
    ensures Finishes(read, i, n, token)
    ensures Walk(read, i, n, token) == rest(token)
    decreases n - i
  {
    var page := read(i, token);
    assert PageFollows(page, rest, token);
    if page != [] {
      WalkOnIds(read, rest, ids, i + 1, n, EndOf(page));
    }
  }

  /** Read backwards while only newer messages are put, a walk ends after at most one
      page more than there were messages left when it began, and delivers just those,
      newest first. */
  lemma {:induction false} BackwardWalkEnds(logs: seq<seq<Message>>, limit: int, token: Option<MessageId>)
    requires OnlyPuts(logs) && limit >= 1 && logs != []
    requires forall i :: 0 <= i < |logs| ==> OnlyNewer(logs[i], logs[0])
    requires |logs| > |logs[0]| - Passed(Reverse(logs[0]), Desc, token)
    ensures Finishes(ReaderOf(logs, limit, Desc), 0, |logs|, token)
    ensures Walk(ReaderOf(logs, limit, Desc), 0, |logs|, token)
            == Reverse(logs[0])[Passed(Reverse(logs[0]), Desc, token)..]
  {
    BackwardPagesFollow(logs, limit);
    WalkOnIds(ReaderOf(logs, limit, Desc), RestOf(Reverse(logs[0]), Desc), IdsIn(logs[0]), 0, |logs|, token);
  }

  lemma {:induction false} BackwardPagesFollow(logs: seq<seq<Message>>, limit: int)
    requires OnlyPuts(logs) && limit >= 1 && logs != []
    requires forall i :: 0 <= i < |logs| ==> OnlyNewer(logs[i], logs[0])
    ensures PagesFollowIds(ReaderOf(logs, limit, Desc), |logs|, RestOf(Reverse(logs[0]), Desc), IdsIn(logs[0]))
  {
    var read, rest, log := ReaderOf(logs, limit, Desc), RestOf(Reverse(logs[0]), Desc), logs[0];
    InOrderFacts(log, Desc);
    forall i: nat, t: Option<MessageId> | i < |logs| && (i == 0 || (t.Some? && t.value in IdsIn(log)))
      ensures PageFollows(read(i, t), rest, t) && (read(i, t) != [] ==> EndOf(read(i, t)).value in IdsIn(log))
    {
      if i > 0 {
        assert Includes(logs[i], logs[0]) && OnlyNewer(logs[i], logs[0]);
        NewerMessagesDoNotShow(log, logs[i], limit, t.value);
      }
      PageFollowsToken(log, limit, t, Desc);
      PageEndsInLog(log, Options(limit, t, Desc));
    }
  }

  lemma PageEndsInLog(log: seq<Message>, options: Options)
    requires Sorted(log) && options.limit >= 1
    ensures var page := Page(log, options); page != [] ==> EndOf(page).value in IdsIn(log)
  {
    var page := Page(log, options);
    PageFacts(log, options);
    if page != [] {
      assert page[|page| - 1] in log;
      var i :| 0 <= i < |log| && log[i] == page[|page| - 1];
    }
  }
}
