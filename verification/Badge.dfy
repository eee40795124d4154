/**
 The Dock badge (electron/badge.ts): the number of sessions and cards all windows together
 report, kept up to date as windows report, close and navigate.
 */
module BadgeUnion {
  import opened Outcomes
  import opened Text

  datatype Card = Card(id: string, session: Option<string>, fallback: string)

  datatype Report = Report(sessions: seq<string>, cards: seq<Card>)

  /** What one unit of the badge stands for. */
  datatype Entry = Session(key: string) | Fallback(key: string)

  // ---- what the reports say ------------------------------------------------

  function AllSessions(reports: seq<Report>): seq<string> {
    if reports == [] then [] else AllSessions(reports[..|reports| - 1]) + reports[|reports| - 1].sessions
  }

  function AllCards(reports: seq<Report>): seq<Card> {
    if reports == [] then [] else AllCards(reports[..|reports| - 1]) + reports[|reports| - 1].cards
  }

  /** k is the least session any card with this id was resolved to. */
  ghost predicate LeastSession(cards: seq<Card>, id: string, k: string) {
    && (exists j :: 0 <= j < |cards| && cards[j].id == id && cards[j].session == Some(k))
    && (forall j :: 0 <= j < |cards| && cards[j].id == id && cards[j].session.Some?
          ==> !Less(cards[j].session.value, k))
  }

  /** No card with this id was resolved. */
  ghost predicate Unresolved(cards: seq<Card>, id: string) {
    forall j :: 0 <= j < |cards| && cards[j].id == id ==> cards[j].session.None?
  }

  /**
   The union the badge is declared to count: every session, and for each card its least session or else
   its fallback.
   */
  ghost function DeclaredUnion(sessions: seq<string>, cards: seq<Card>): set<Entry> {
    (set k | k in sessions :: Session(k))
    + (set j | 0 <= j < |cards| && cards[j].session.Some? && LeastSession(cards, cards[j].id, cards[j].session.value)
         :: Session(cards[j].session.value))
    + (set j | 0 <= j < |cards| && Unresolved(cards, cards[j].id) :: Fallback(cards[j].fallback))
  }

  /** The reports agree on each card's fallback. */
  ghost predicate Agreed(cards: seq<Card>) {
    forall i, j :: 0 <= i < |cards| && 0 <= j < |cards| && cards[i].id == cards[j].id
      ==> cards[i].fallback == cards[j].fallback
  }

  // ---- what the loops keep ---------------------------------------------------

  /** The map `resolved` after these cards. */
  function Resolved(cards: seq<Card>): map<string, string> {
    if cards == [] then map[] else
      var m, c := Resolved(cards[..|cards| - 1]), cards[|cards| - 1];
      if c.session.Some? && (c.id !in m || Less(c.session.value, m[c.id])) then m[c.id := c.session.value] else m
  }

  /** The map `fallbacks` after these cards: the last one reported of each id. */
  function Fallbacks(cards: seq<Card>): map<string, string> {
    if cards == [] then map[] else
      Fallbacks(cards[..|cards| - 1])[cards[|cards| - 1].id := cards[|cards| - 1].fallback]
  }

  lemma {:induction false} ResolvedIsLeast(cards: seq<Card>, id: string)
    ensures id in Resolved(cards) ==> LeastSession(cards, id, Resolved(cards)[id])
    ensures id !in Resolved(cards) ==> Unresolved(cards, id)
  {
    if cards != [] {
      var init, c := cards[..|cards| - 1], cards[|cards| - 1];
      ResolvedIsLeast(init, id);
      if c.id == id && c.session.Some? {
        ResolvedStep(init, c);
        assert cards == init + [c];
      }
    }
  }

  lemma ResolvedStep(init: seq<Card>, c: Card)
    requires c.session.Some?
    requires c.id in Resolved(init) ==> LeastSession(init, c.id, Resolved(init)[c.id])
    requires c.id !in Resolved(init) ==> Unresolved(init, c.id)
    ensures var m := Resolved(init);
            var k := c.session.value;
            LeastSession(init + [c], c.id, if c.id !in m || Less(k, m[c.id]) then k else m[c.id])
  {
    var all, m, k := init + [c], Resolved(init), c.session.value;
    assert all[|init|] == c;
    if c.id in m {
      var j :| 0 <= j < |init| && init[j].id == c.id && init[j].session == Some(m[c.id]);
      assert all[j] == init[j];
      if Less(k, m[c.id]) {
        LessAsymmetric(k, m[c.id]);
        forall i | 0 <= i < |init| && init[i].id == c.id && init[i].session.Some?
          ensures !Less(init[i].session.value, k)
        {
          LessTransitive(k, m[c.id], init[i].session.value);
        }
      }
    }
    LessIrreflexive(k);
  }

  lemma LeastIsUnique(cards: seq<Card>, id: string, k: string, l: string)
    requires LeastSession(cards, id, k) && LeastSession(cards, id, l)
    ensures k == l
  {
    LessTotal(k, l);
  }

  /** No later card has the id of card i. */
  ghost predicate IsLast(cards: seq<Card>, i: int) {
    0 <= i < |cards| && forall j :: i < j < |cards| ==> cards[j].id != cards[i].id
  }

  lemma {:induction false} FallbacksAreLast(cards: seq<Card>, id: string)
    ensures id in Fallbacks(cards) <==> exists j :: 0 <= j < |cards| && cards[j].id == id
    ensures id in Fallbacks(cards) ==>
      exists i :: IsLast(cards, i) && cards[i].id == id && cards[i].fallback == Fallbacks(cards)[id]
  {
    if cards != [] {
      var n := |cards| - 1;
      var init := cards[..n];
      FallbacksAreLast(init, id);
      assert forall j :: 0 <= j < n ==> cards[j] == init[j];
      if id == cards[n].id {
        assert IsLast(cards, n);
      } else if id in Fallbacks(init) {
        var i :| IsLast(init, i) && init[i].id == id && init[i].fallback == Fallbacks(init)[id];
        assert IsLast(cards, i);
      }
    }
  }

  // ---- badgeCount -------------------------------------------------------------

  function EntryText(e: Entry): string {
    match e
    case Session(k) => "s|" + k
    case Fallback(k) => "f|" + k
  }

  lemma EntryTextInjective(a: Entry, b: Entry)
    requires EntryText(a) == EntryText(b)
    ensures a == b
  {
    assert EntryText(a)[0] == EntryText(b)[0];
    assert EntryText(a)[2..] == a.key && EntryText(b)[2..] == b.key;
  }

  function CardEntry(resolved: map<string, string>, id: string, fallback: string): Entry {
    if id in resolved then Session(resolved[id]) else Fallback(fallback)
  }

  /** The entries badgeCount adds to its set. */
  ghost function Counted(sessions: seq<string>, cards: seq<Card>): set<Entry> {
    (set k | k in sessions :: Session(k))
    + (set id | id in Fallbacks(cards) :: CardEntry(Resolved(cards), id, Fallbacks(cards)[id]))
  }

  ghost function Texts(es: set<Entry>): set<string> {
    set e | e in es :: EntryText(e)
  }

  lemma {:induction false} TextsSize(es: set<Entry>)
    ensures |Texts(es)| == |es|
  {
    if es != {} {
      var e :| e in es;
      TextsSize(es - {e});
      forall d | d in es - {e} ensures EntryText(d) != EntryText(e) {
        if EntryText(d) == EntryText(e) { EntryTextInjective(d, e); }
      }
      assert Texts(es) == Texts(es - {e}) + {EntryText(e)};
    }
  }

  method BadgeCount(reports: seq<Report>) returns (n: nat)
    ensures n == |Counted(AllSessions(reports), AllCards(reports))|
  {
    var s: set<string> := {};
    var resolved: map<string, string> := map[];
    var fallbacks: map<string, string> := map[];
    for i := 0 to |reports|
      invariant s == SessionTexts(AllSessions(reports[..i]))
      invariant resolved == Resolved(AllCards(reports[..i]))
      invariant fallbacks == Fallbacks(AllCards(reports[..i]))
    {
      var r := reports[i];
      s := AddSessions(s, AllSessions(reports[..i]), r.sessions);
      resolved, fallbacks := AddCards(resolved, fallbacks, AllCards(reports[..i]), r.cards);
      PrefixStep(reports, i);
    }
    assert reports[..|reports|] == reports;
    ghost var cards := AllCards(reports);
    ghost var start := s;
    var todo := fallbacks.Keys;
    while todo != {}
      invariant todo <= fallbacks.Keys
      invariant s == start + (set id | id in fallbacks.Keys - todo :: EntryText(CardEntry(resolved, id, fallbacks[id])))
      decreases |todo|
    {
      var id :| id in todo;
      s := s + {EntryText(CardEntry(resolved, id, fallbacks[id]))};
      todo := todo - {id};
    }
    CountedTexts(AllSessions(reports), cards);
    assert s == Texts(Counted(AllSessions(reports), cards));
    TextsSize(Counted(AllSessions(reports), cards));
    n := |s|;
  }

  ghost function SessionTexts(sessions: seq<string>): set<string> {
    set k | k in sessions :: EntryText(Session(k))
  }

  lemma PrefixStep(reports: seq<Report>, i: nat)
    requires i < |reports|
    ensures AllSessions(reports[..i + 1]) == AllSessions(reports[..i]) + reports[i].sessions
    ensures AllCards(reports[..i + 1]) == AllCards(reports[..i]) + reports[i].cards
  {
    assert reports[..i + 1][..i] == reports[..i];
  }

  lemma CountedTexts(sessions: seq<string>, cards: seq<Card>)
    ensures Texts(Counted(sessions, cards)) == SessionTexts(sessions)
      + (set id | id in Fallbacks(cards).Keys :: EntryText(CardEntry(Resolved(cards), id, Fallbacks(cards)[id])))
  {
  }

  /** The inner loop over one report's sessions. */
  method AddSessions(s: set<string>, ghost before: seq<string>, sessions: seq<string>) returns (t: set<string>)
    requires s == SessionTexts(before)
    ensures t == SessionTexts(before + sessions)
  {
    t := s;
    assert before + sessions[..0] == before;
    for j := 0 to |sessions|
      invariant t == SessionTexts(before + sessions[..j])
    {
      t := t + {EntryText(Session(sessions[j]))};
      assert before + sessions[..j + 1] == before + sessions[..j] + [sessions[j]];
    }
    assert sessions[..|sessions|] == sessions;
  }

  /** The inner loop over one report's cards. */
  method AddCards(resolved: map<string, string>, fallbacks: map<string, string>,
                  ghost before: seq<Card>, cards: seq<Card>)
    returns (r: map<string, string>, f: map<string, string>)
    requires resolved == Resolved(before) && fallbacks == Fallbacks(before)
    ensures r == Resolved(before + cards) && f == Fallbacks(before + cards)
  {
    r, f := resolved, fallbacks;
    assert before + cards[..0] == before;
    for j := 0 to |cards|
      invariant r == Resolved(before + cards[..j]) && f == Fallbacks(before + cards[..j])
    {
      var c := cards[j];
      ghost var next := before + cards[..j + 1];
      assert next[..|next| - 1] == before + cards[..j] && next[|next| - 1] == c;
      f := f[c.id := c.fallback];
      if c.session.Some? && (c.id !in r || Less(c.session.value, r[c.id])) {
        r := r[c.id := c.session.value];
      }
    }
    assert cards[..|cards|] == cards;
  }

  // ---- the count is the declared one -------------------------------------------

  lemma CountedIsDeclared(sessions: seq<string>, cards: seq<Card>, e: Entry)
    requires e in Counted(sessions, cards)
    ensures e in DeclaredUnion(sessions, cards)
  {
    if !(exists k :: k in sessions && e == Session(k)) {
      var id :| id in Fallbacks(cards) && e == CardEntry(Resolved(cards), id, Fallbacks(cards)[id]);
      FallbacksAreLast(cards, id);
      ResolvedIsLeast(cards, id);
      var i :| IsLast(cards, i) && cards[i].id == id && cards[i].fallback == Fallbacks(cards)[id];
      if id in Resolved(cards) {
        var j :| 0 <= j < |cards| && cards[j].id == id && cards[j].session == Some(Resolved(cards)[id]);
      }
    }
  }

  lemma DeclaredSessionIsCounted(sessions: seq<string>, cards: seq<Card>, k: string)
    requires Session(k) in DeclaredUnion(sessions, cards)
    ensures Session(k) in Counted(sessions, cards)
  {
    if k !in sessions {
      var j :| 0 <= j < |cards| && cards[j].session == Some(k) && LeastSession(cards, cards[j].id, k);
      var id := cards[j].id;
      FallbacksAreLast(cards, id);
      ResolvedIsLeast(cards, id);
      assert id in Resolved(cards);
      LeastIsUnique(cards, id, k, Resolved(cards)[id]);
      assert Session(k) == CardEntry(Resolved(cards), id, Fallbacks(cards)[id]);
    }
  }

  /** f is the last fallback reported for a card that no window resolved. */
  ghost predicate LastOfUnresolved(cards: seq<Card>, f: string) {
    exists i :: IsLast(cards, i) && cards[i].fallback == f && Unresolved(cards, cards[i].id)
  }

  lemma FallbackIsCountedIff(sessions: seq<string>, cards: seq<Card>, f: string)
    ensures Fallback(f) in Counted(sessions, cards) <==> LastOfUnresolved(cards, f)
  {
    if Fallback(f) in Counted(sessions, cards) {
      var id :| id in Fallbacks(cards) && Fallback(f) == CardEntry(Resolved(cards), id, Fallbacks(cards)[id]);
      FallbacksAreLast(cards, id);
      ResolvedIsLeast(cards, id);
    }
    if LastOfUnresolved(cards, f) {
      var i :| IsLast(cards, i) && cards[i].fallback == f && Unresolved(cards, cards[i].id);
      var id := cards[i].id;
      FallbacksAreLast(cards, id);
      ResolvedIsLeast(cards, id);
      assert Fallback(f) == CardEntry(Resolved(cards), id, Fallbacks(cards)[id]);
    }
  }

  /** Every fallback reported for an unresolved card is the last one reported for some unresolved card. */
  ghost predicate FallbacksSurvive(cards: seq<Card>) {
    forall j :: 0 <= j < |cards| && Unresolved(cards, cards[j].id) ==> LastOfUnresolved(cards, cards[j].fallback)
  }

  lemma {:induction false} LastWithId(cards: seq<Card>, j: nat)
    requires j < |cards|
    ensures exists i :: IsLast(cards, i) && cards[i].id == cards[j].id
    decreases |cards| - j
  {
    if k :| j < k < |cards| && cards[k].id == cards[j].id {
      LastWithId(cards, k);
    } else {
      assert IsLast(cards, j);
    }
  }

  lemma AgreedSurvive(cards: seq<Card>)
    requires Agreed(cards)
    ensures FallbacksSurvive(cards)
  {
    forall j | 0 <= j < |cards| && Unresolved(cards, cards[j].id) ensures LastOfUnresolved(cards, cards[j].fallback) {
      LastWithId(cards, j);
      var i :| IsLast(cards, i) && cards[i].id == cards[j].id;
      assert cards[i].fallback == cards[j].fallback;
    }
  }

  lemma SubsetSameSize<T>(a: set<T>, b: set<T>)
    requires a <= b && |a| == |b|
    ensures a == b
  {
    assert |b| == |a| + |b - a| by { assert b == a + (b - a); }
    assert b - a == {};
  }

  /** The count never exceeds the declared union, and is its size exactly when every fallback survives. */
  lemma CountIsDeclaredIff(sessions: seq<string>, cards: seq<Card>)
    ensures |Counted(sessions, cards)| <= |DeclaredUnion(sessions, cards)|
    ensures |Counted(sessions, cards)| == |DeclaredUnion(sessions, cards)| <==> FallbacksSurvive(cards)
  {
    var c, d := Counted(sessions, cards), DeclaredUnion(sessions, cards);
    forall e | e in c ensures e in d {
      CountedIsDeclared(sessions, cards, e);
    }
    assert |d| == |c| + |d - c| by { assert d == c + (d - c); }
    if FallbacksSurvive(cards) {
      forall e | e in d ensures e in c {
        SurvivorsAreCounted(sessions, cards, e);
      }
      assert c == d;
    }
    if |c| == |d| {
      SubsetSameSize(c, d);
      forall j | 0 <= j < |cards| && Unresolved(cards, cards[j].id) ensures LastOfUnresolved(cards, cards[j].fallback) {
        assert Fallback(cards[j].fallback) in d;
        FallbackIsCountedIff(sessions, cards, cards[j].fallback);
      }
    }
  }

  lemma SurvivorsAreCounted(sessions: seq<string>, cards: seq<Card>, e: Entry)
    requires FallbacksSurvive(cards) && e in DeclaredUnion(sessions, cards)
    ensures e in Counted(sessions, cards)
  {
    match e
    case Session(k) => DeclaredSessionIsCounted(sessions, cards, k);
    case Fallback(f) => FallbackIsCountedIff(sessions, cards, f);
  }

  /** When the reports agree on fallbacks, the badge is the size of the declared union. */
  lemma AgreedCountIsDeclared(sessions: seq<string>, cards: seq<Card>)
    requires Agreed(cards)
    ensures |Counted(sessions, cards)| == |DeclaredUnion(sessions, cards)|
  {
    AgreedSurvive(cards);
    CountIsDeclaredIff(sessions, cards);
  }

  // ---- the order of reports does not matter -------------------------------------

  ghost predicate SameElements<T(!new)>(a: seq<T>, b: seq<T>) {
    forall x :: x in a <==> x in b
  }

  lemma DeclaredIgnoresOrder(s1: seq<string>, c1: seq<Card>, s2: seq<string>, c2: seq<Card>, e: Entry)
    requires SameElements(s1, s2) && SameElements(c1, c2) && e in DeclaredUnion(s1, c1)
    ensures e in DeclaredUnion(s2, c2)
  {
    if j :| 0 <= j < |c1| && c1[j].session.Some? && e == Session(c1[j].session.value)
            && LeastSession(c1, c1[j].id, c1[j].session.value) {
      assert c1[j] in c2;
      var i :| 0 <= i < |c2| && c2[i] == c1[j];
      forall l | 0 <= l < |c2| ensures c2[l] in c1 {}
      assert LeastSession(c2, c2[i].id, c2[i].session.value);
    } else if j :| 0 <= j < |c1| && e == Fallback(c1[j].fallback) && Unresolved(c1, c1[j].id) {
      assert c1[j] in c2;
      var i :| 0 <= i < |c2| && c2[i] == c1[j];
      forall l | 0 <= l < |c2| ensures c2[l] in c1 {}
      assert Unresolved(c2, c2[i].id);
    }
  }

  /** Any reports with the same sessions and the same cards, in any order and grouping, give the same number. */
  lemma CountIgnoresOrder(r1: seq<Report>, r2: seq<Report>)
    requires SameElements(AllSessions(r1), AllSessions(r2)) && SameElements(AllCards(r1), AllCards(r2))
    requires Agreed(AllCards(r1))
    ensures |Counted(AllSessions(r1), AllCards(r1))| == |Counted(AllSessions(r2), AllCards(r2))|
  {
    var s1, s2, c1, c2 := AllSessions(r1), AllSessions(r2), AllCards(r1), AllCards(r2);
    AgreedIgnoresOrder(c1, c2);
    AgreedCountIsDeclared(s1, c1);
    AgreedCountIsDeclared(s2, c2);
    SameUnion(s1, c1, s2, c2);
  }

  lemma AgreedIgnoresOrder(c1: seq<Card>, c2: seq<Card>)
    requires SameElements(c1, c2) && Agreed(c1)
    ensures Agreed(c2)
  {
    forall i, j | 0 <= i < |c2| && 0 <= j < |c2| && c2[i].id == c2[j].id ensures c2[i].fallback == c2[j].fallback {
      assert c2[i] in c1 && c2[j] in c1;
    }
  }

  lemma SameUnion(s1: seq<string>, c1: seq<Card>, s2: seq<string>, c2: seq<Card>)
    requires SameElements(s1, s2) && SameElements(c1, c2)
    ensures DeclaredUnion(s1, c1) == DeclaredUnion(s2, c2)
  {
    forall e ensures e in DeclaredUnion(s1, c1) <==> e in DeclaredUnion(s2, c2) {
      if e in DeclaredUnion(s1, c1) { DeclaredIgnoresOrder(s1, c1, s2, c2, e); }
      if e in DeclaredUnion(s2, c2) { DeclaredIgnoresOrder(s2, c2, s1, c1, e); }
    }
  }

  /** Without agreement it matters: two windows disagree on card a's fallback, and card b shares one of the two. */
  lemma DisagreementCountsByOrder()
    ensures var x, y, b := Card("a", None, "x"), Card("a", None, "y"), Card("b", None, "x");
      |Counted([], [x, y, b])| == 2 && |Counted([], [y, x, b])| == 1
  {
    var x, y, b := Card("a", None, "x"), Card("a", None, "y"), Card("b", None, "x");
    assert "a" != "b" && "x" != "y";
    LaterFallbackWins(x, y, b);
    LaterFallbackWins(y, x, b);
    assert {Fallback("x"), Fallback("x")} == {Fallback("x")};
  }

  lemma LaterFallbackWins(p: Card, q: Card, r: Card)
    requires p.session.None? && q.session.None? && r.session.None? && p.id == q.id != r.id
    ensures Counted([], [p, q, r]) == {Fallback(q.fallback), Fallback(r.fallback)}
  {
    var cards := [p, q, r];
    NothingResolved(cards);
    assert cards[..2] == [p, q] && [p, q][..1] == [p] && [p][..0] == [];
    var f := Fallbacks(cards);
    assert f == Fallbacks([p, q])[r.id := r.fallback] && Fallbacks([p, q]) == Fallbacks([p])[q.id := q.fallback];
    assert Fallbacks([p]) == map[][p.id := p.fallback];
    assert q.id in f && r.id in f && f[q.id] == q.fallback && f[r.id] == r.fallback;
    assert f.Keys == {q.id, r.id};
  }

  lemma {:induction false} NothingResolved(cards: seq<Card>)
    requires forall j :: 0 <= j < |cards| ==> cards[j].session.None?
    ensures Resolved(cards) == map[]
  {
    if cards != [] {
      NothingResolved(cards[..|cards| - 1]);
    }
  }
}
