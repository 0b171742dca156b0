/** How hard the client tries: four transmissions a connection, two connections a request, and no more. */
module Persistence {
  import opened ProtocolLaws
  import opened Framing
  import opened Client

  ghost predicate AlwaysSilent(fates: nat -> Fate) {
    forall k: nat :: fates(k).Silent()
  }

  lemma {:induction false} SilentExchange(fates: nat -> Fate, w: Wire, q: Request, tries: nat, warming: bool)
    requires q.WellFormed() && AlwaysSilent(fates)
    ensures var (ended, w') := Exchange(fates, w, q, tries, warming);
      ended == Raised(false) && w'.sends == w.sends + tries && w'.warmups == w.warmups + if warming then tries else 0
    decreases tries
  {
    hide Try, Answerable, CarriedOutOnce, UntouchedOrOnce, Fate.Silent, Request.WellFormed;
    if tries > 0 {
      assert fates(w.sends).Silent();
      TryActsAtMostOnce(fates, w, q, warming);
      SilentExchange(fates, Try(fates, w, q, warming).1, q, tries - 1, warming);
    }
  }

  /** Over a link that never answers, a request is sent exactly twice `tries` times, with one warm-up in between. */
  lemma SilentRequest(fates: nat -> Fate, w: Wire, q: Request, tries: nat)
    requires q.WellFormed() && AlwaysSilent(fates)
    ensures var (ended, open, w') := Requested(fates, true, w, q, tries, CONNECTION_ATTEMPTS);
      ended == Raised(false) && !open && w'.warmups == w.warmups + tries && w'.sends == w.sends + 3 * tries
  {
    hide Exchange, Fate.Silent;
    var w1 := Exchange(fates, w, q, tries, false).1;
    SilentExchange(fates, w, q, tries, false);
    SilentExchange(fates, w1, WARM_UP, tries, true);
    var w2 := Connect(fates, w1, tries).1;
    SilentExchange(fates, w2, q, tries, false);
    var w3 := Exchange(fates, w2, q, tries, false).1;
    assert Requested(fates, false, w3, q, tries, 0) == (Raised(false), false, w3);
    assert Requested(fates, false, w1, q, tries, 1) == (Raised(false), false, w3);
  }

  /** A fault costs a request its connection, not its answer: it reconnects, warms up and sends again. */
  lemma SecondConnectionAnswers(fates: nat -> Fate, w: Wire, q: Request, tries: nat)
    requires q.WellFormed() && Answerable(q) && tries > 0
    requires fates(w.sends).Faulted? && fates(w.sends + 1).Delivered? && fates(w.sends + 2).Delivered?
    ensures var (ended, open, w') := Requested(fates, true, w, q, tries, CONNECTION_ATTEMPTS);
      && ended.Replied? && open && CarriedOutOnce(w.mem, q, ended.frame, w'.mem)
      && w'.sends == w.sends + 3 && w'.warmups == w.warmups + 1
  {
    hide Try, Answerable, CarriedOutOnce;
    TryActsAtMostOnce(fates, w, q, false);
    var w1 := Try(fates, w, q, false).1;
    assert Exchange(fates, w, q, tries, false) == (Raised(false), w1);
    TryActsAtMostOnce(fates, w1, WARM_UP, true);
    assert Answerable(WARM_UP) by { WarmUpIsTheSettingsPoll(); }
    var w2 := Try(fates, w1, WARM_UP, true).1;
    assert Exchange(fates, w1, WARM_UP, tries, true).1 == w2 && Connect(fates, w1, tries) == (true, w2);
    TryActsAtMostOnce(fates, w2, q, false);
    assert Exchange(fates, w2, q, tries, false).0.Replied?;
    RetriesActAsOneDelivery(fates, true, w, q, tries, CONNECTION_ATTEMPTS);
  }

  lemma WarmUpIsTheSettingsPoll()
    ensures WARM_UP.Text() == "r00000073FC" && Answerable(WARM_UP)
  {
    GenuineFrames();
  }

  /** The client as shipped, with three retries, asking a machine that never answers: eight sends, four warm-ups. */
  method AskSilentLink(client: R60VClient, q: Request) returns (ended: Ended)
    requires client.Valid() && client.connected && client.maxRetries == 3 && q.WellFormed()
    requires AlwaysSilent(client.link.fates)
    modifies client, client.link, client.link.machine.settings
    ensures client.Valid() && ended == Raised(false) && !client.connected
    ensures client.link.warmups == old(client.link.warmups) + 4
    ensures client.link.sends == old(client.link.sends) + 4 + 8
  {
    SilentRequest(client.link.fates, client.link.State(), q, 4);
    ended := client.Send(q);
  }

  /** And one whose first three transmissions are lost: the fourth, on the same socket, is answered. */
  method AskThroughThreeLosses(client: R60VClient, q: Request) returns (ended: Ended)
    requires client.Valid() && client.connected && client.maxRetries == 3 && q.WellFormed() && Answerable(q)
    requires forall k :: client.link.sends <= k < client.link.sends + 3 ==> client.link.fates(k).Silent()
    requires client.link.fates(client.link.sends + 3).Delivered?
    modifies client, client.link, client.link.machine.settings
    ensures client.Valid() && ended.Replied? && client.connected
    ensures client.link.sends == old(client.link.sends) + 4 && client.link.warmups == old(client.link.warmups)
  {
    ghost var fates, w := client.link.fates, client.link.State();
    assert AnsweredWithin(fates, w.sends, 4);
    ExchangeSucceedsExactly(fates, w, q, 4, false);
    ExchangeSends(fates, w, q, 4, false);
    ExchangeActsOnce(fates, w, q, 4, false);
    assert AfterExchange(fates, w.sends, 4) == w.sends + 4;
    hide Exchange, Answerable, AnsweredWithin;
    ended := client.Send(q);
  }

  /** A client made without further settings retries three times. */
  method ShippedClient(link: Link) returns (client: R60VClient)
    requires link.Valid()
    ensures fresh(client) && client.Valid() && client.link == link && client.maxRetries == 3 && !client.connected
  {
    client := new R60VClient(link);
  }
}
