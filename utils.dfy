/** Deck and log helpers: the Fisher-Yates shuffle, deck construction from a
    configuration, and the bounded newest-first game log. */
module Utils {
  import opened Types
  import opened State

  /** The Fisher-Yates shuffle from index `i` down: `rand(i)` stands for the
      random draw made at index `i`, and the element there is swapped with
      the one at `rand(i) % (i + 1)`, a position in [0, i]. */
  function FisherYates<T>(s: seq<T>, i: int, rand: nat -> nat): (r: seq<T>)
    requires -1 <= i < |s|
    ensures |r| == |s|
    decreases i
  {
    if i <= 0 then s
    else
      var j := rand(i) % (i + 1);
      FisherYates(s[i := s[j]][j := s[i]], i - 1, rand)
  }

  /** The shuffle only rearranges: the same elements, as often as before. */
  lemma {:induction false} FisherYatesPermutes<T>(s: seq<T>, i: int, rand: nat -> nat)
    requires -1 <= i < |s|
    ensures multiset(FisherYates(s, i, rand)) == multiset(s)
    decreases i
  {
    if i > 0 {
      var j := rand(i) % (i + 1);
      var t := s[i := s[j]][j := s[i]];
      FisherYatesPermutes(t, i - 1, rand);
      assert multiset(t) == multiset(s) by {
        if i != j {
          assert multiset(s[i := s[j]]) == multiset(s) - multiset{s[i]} + multiset{s[j]};
        }
      }
    }
  }

  /** Shuffles `a` in place; the same array is returned. */
  method Shuffle<T>(a: array<T>, rand: nat -> nat) returns (r: array<T>)
    modifies a
    ensures r == a
    ensures a[..] == FisherYates(old(a[..]), a.Length - 1, rand)
    ensures multiset(a[..]) == multiset(old(a[..]))
  {
    var i := a.Length - 1;
    while i > 0
      invariant -1 <= i < a.Length
      invariant FisherYates(a[..], i, rand) == FisherYates(old(a[..]), a.Length - 1, rand)
    {
      var j := rand(i) % (i + 1);
      ghost var before := a[..];
      a[i], a[j] := a[j], a[i];
      assert a[..] == before[i := before[j]][j := before[i]];
      i := i - 1;
    }
    FisherYatesPermutes(old(a[..]), a.Length - 1, rand);
    r := a;
  }

  /** Shuffles a deck held as a sequence: copy into an array, shuffle, read back. */
  method ShuffleSeq<T(0)>(s: seq<T>, rand: nat -> nat) returns (r: seq<T>)
    ensures r == FisherYates(s, |s| - 1, rand)
    ensures multiset(r) == multiset(s)
  {
    var a := new T[|s|](k requires 0 <= k < |s| => s[k]);
    assert a[..] == s;
    var b := Shuffle(a, rand);
    r := b[..];
  }

  /** One entry of a deck configuration: `count` copies of a value card, or of
      a named effect card. */
  datatype DeckItem = ValueItem(value: int, count: nat) | NamedItem(name: Name, count: nat)

  function ItemCount(config: seq<DeckItem>): nat
  {
    if config == [] then 0 else config[0].count + ItemCount(config[1..])
  }

  /** The card an item describes: a value item gives name = value = item.value,
      a named item gives its name. */
  predicate FromItem(item: DeckItem, c: Card, cardType: CardType)
  {
    && c.ctype == cardType
    && c.casterId == None && !c.isLocked && !c.isIndividualLock && c.reversedEffectType == None
    && match item
       case ValueItem(v, _) => c.name == Num(v) && c.value == v
       case NamedItem(n, _) => c.name == n && c.value == 0
  }

  function ItemCard(item: DeckItem, cardType: CardType, id: nat): Card
  {
    match item
    case ValueItem(v, _) => Card(id, cardType, Num(v), v, None, false, false, None)
    case NamedItem(n, _) => Card(id, cardType, n, 0, None, false, false, None)
  }

  function Copies(item: DeckItem, cardType: CardType, firstId: nat, k: nat): (cards: seq<Card>)
    ensures |cards| == k
    ensures forall i :: 0 <= i < k ==> cards[i] == ItemCard(item, cardType, firstId + i)
  {
    if k == 0 then [] else Copies(item, cardType, firstId, k - 1) + [ItemCard(item, cardType, firstId + k - 1)]
  }

  /** The deck described by `config`: `count` cards per item, in order. Card
      ids stand for the abstract unique ids the source builds; here they are
      consecutive from `firstId`. */
  function CreateDeck(config: seq<DeckItem>, cardType: CardType, firstId: nat): (deck: seq<Card>)
    ensures |deck| == ItemCount(config)
    ensures forall k :: 0 <= k < |deck| ==> deck[k].id == firstId + k
    ensures forall c :: c in deck ==> exists item :: item in config && FromItem(item, c, cardType)
  {
    if config == [] then []
    else
      var first := Copies(config[0], cardType, firstId, config[0].count);
      assert forall c :: c in first ==> FromItem(config[0], c, cardType);
      first + CreateDeck(config[1..], cardType, firstId + config[0].count)
  }

  lemma CreateDeckIdsDistinct(config: seq<DeckItem>, cardType: CardType, firstId: nat)
    ensures Distinct(IdsOf(CreateDeck(config, cardType, firstId)))
  {
    var d := CreateDeck(config, cardType, firstId);
    IdsOfAt(d);
  }

  lemma {:induction false} IdsOfAt(cards: seq<Card>)
    ensures |IdsOf(cards)| == |cards|
    ensures forall k :: 0 <= k < |cards| ==> IdsOf(cards)[k] == cards[k].id
  {
    if cards != [] {
      IdsOfAt(cards[1..]);
    }
  }

  /** The log after a message is added: the message first, and the oldest entry
      dropped once the log is over capacity. */
  function NewestFirst(log: seq<string>, message: string): (r: seq<string>)
    ensures |r| > 0 && r[0] == message
    ensures |log| < LOG_CAPACITY ==> r == [message] + log
    ensures |log| <= LOG_CAPACITY ==> |r| <= LOG_CAPACITY
    ensures |r| <= |log| + 1 && r[1..] == log[..|r| - 1]
  {
    var l := [message] + log;
    if |l| > LOG_CAPACITY then l[..|l| - 1] else l
  }

  /** Adds a message to the game log; with no game state it does nothing. */
  method UpdateLog(g: GameState?, message: string)
    modifies (if g == null then {} else {g as GameState})`log
    ensures g != null ==> g.log == NewestFirst(old(g.log), message)
  {
    if g == null {
      return;
    }
    g.log := [message] + g.log;
    if |g.log| > LOG_CAPACITY {
      g.log := g.log[..|g.log| - 1];
    }
  }
}
