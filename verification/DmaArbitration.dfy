/** Who is granted the bus: what the pick means, how rotating priority turns, and what ownership of the bus is
    worth. */
module DmaArbitration {
  import opened Dma

  /** The pick is an eligible channel, and there is one unless none is eligible or the controller is
      disabled.  An eligible owner of the bus comes before any other channel; among several, the lowest. */
  lemma PickSpec(r: Registers, x: Xt, requests: set<int>)
    ensures var p := Pick(r, x, requests);
            && (p == -1 <==> r.command / 4 % 2 == 1 || Eligible(r, requests) == {})
            && (p != -1 ==> p in requests && p in r.enabled && p !in r.mask && 0 <= p < 4)
            && (forall c :: c in Eligible(r, requests) * (x.demand + x.block) && p != -1 ==>
                              p in x.demand + x.block && p <= c)
            && (Eligible(r, requests) * (x.demand + x.block) == {} && p != -1 ==>
                  forall c :: c in Eligible(r, requests) ==>
                                if r.command / 16 % 2 == 1 then Distance(x.last, p) <= Distance(x.last, c) else p <= c)
  {
    var eligible := Eligible(r, requests);
    LowestSpec(eligible);
    LowestSpec(eligible * (x.demand + x.block));
    NextSpec(eligible, x.last);
  }

  /** How far after last a channel comes, going round: 0 to 3. */
  function Distance(last: int, c: int): (d: int)
    ensures 0 <= d < 4
  {
    (c - last - 1) % 4
  }

  lemma LowestSpec(s: set<int>)
    requires s <= ALL
    ensures Lowest(s) == -1 <==> s == {}
    ensures s != {} ==> Lowest(s) in s && forall c :: c in s ==> Lowest(s) <= c
  {
  }

  lemma NextSpec(s: set<int>, last: int)
    requires s <= ALL
    ensures Next(s, last) == -1 <==> s == {}
    ensures s != {} ==> Next(s, last) in s && forall c :: c in s ==> Distance(last, Next(s, last)) <= Distance(last, c)
  {
    forall c | c in s
      ensures Next(s, last) in s && Distance(last, Next(s, last)) <= Distance(last, c)
    {
      assert c in ALL;
      assert c == (last + 1 + Distance(last, c)) % 4;
    }
  }

  // ----- rotating priority -----

  /** A completed unit makes its channel the last one served exactly under rotating priority and if it was in single
      mode or the channel's last; one that is not the last changes nothing else of the order or of ownership. */
  lemma UnitTurns(s: State, c: int)
    requires Sane(s) && 0 <= c < 4
    ensures FinishTransfer(s, c).xt.last ==
            if s.reg.command / 16 % 2 == 1 && (s.prog[c].mode / 64 % 4 == 1 || Terminal(s, c)) then c else s.xt.last
    ensures !Terminal(s, c) ==>
              var x := FinishTransfer(s, c).xt;
              x == s.xt.(dack := if s.prog[c].mode / 64 % 4 == 1 then s.xt.dack - {c} else s.xt.dack, last := x.last)
  {
  }

  function Picked(s: State): int {
    Pick(s.reg, s.xt, Requests(s))
  }

  /** A unit of channel p in single mode brings a waiting channel nearer to its turn if and only if p's own turn
      came before. */
  lemma UnitBringsNearer(cf: Config, s: State, p: int, c: int)
    requires Sane(s) && s.reg.command / 16 % 2 == 1 && 0 <= p < 4 && 0 <= c < 4 && p != c && s.prog[p].mode / 64 % 4 == 1
    ensures Distance(FinishTransfer(Moved(cf, s, p), p).xt.last, c) < Distance(s.xt.last, c) <==>
            Distance(s.xt.last, p) < Distance(s.xt.last, c)
  {
    hide FinishTransfer, Moved, Distance;
    UnitTurns(Moved(cf, s, p), p);
    MovedKeepsOrder(cf, s, p);
    NearerExactly(s.xt.last, p, c);
  }

  lemma MovedKeepsOrder(cf: Config, s: State, p: int)
    requires Sane(s) && 0 <= p < 4
    ensures var t := Moved(cf, s, p);
            t.xt.last == s.xt.last && t.reg.command == s.reg.command && t.prog == s.prog
  {
  }

  lemma NearerExactly(last: int, p: int, c: int)
    requires 0 <= p < 4 && 0 <= c < 4 && p != c
    ensures Distance(p, c) < Distance(last, c) <==> Distance(last, p) < Distance(last, c)
  {
  }

  /** While nobody owns the bus, the pick's turn comes before that of any other eligible channel. */
  lemma PickIsNearest(s: State, c: int)
    requires s.reg.command / 16 % 2 == 1 && s.xt.demand == s.xt.block == {} && Picked(s) != -1
    requires c in Eligible(s.reg, Requests(s)) && c != Picked(s)
    ensures 0 <= Picked(s) < 4 && Distance(s.xt.last, Picked(s)) < Distance(s.xt.last, c)
  {
    PickSpec(s.reg, s.xt, Requests(s));
    hide Pick, Requests;
    OneEach(s.xt.last, Picked(s), c);
  }

  lemma OneEach(last: int, p: int, c: int)
    requires 0 <= p < 4 && 0 <= c < 4 && p != c
    ensures Distance(last, p) != Distance(last, c)
  {
  }

  /** When channel 0, and with it a latched refresh request, can be served: it must be enabled, unmasked and asking,
      and either own the bus, or find no eligible owner and -- under rotating priority -- no eligible channel
      nearer to its turn. */
  lemma ServiceableExactly(s: State)
    requires Sane(s)
    ensures var e := Eligible(s.reg, Requests(s));
            CanService(s, 0) <==>
              && s.reg.command / 4 % 2 == 0 && 0 in e && s.prog[0].mode / 64 % 4 != 3
              && (0 in Owners(s) ||
                  (e * Owners(s) == {} &&
                   (s.reg.command / 16 % 2 == 1 ==> forall d :: d in e ==> Distance(s.xt.last, 0) <= Distance(s.xt.last, d))))
  {
    var e := Eligible(s.reg, Requests(s));
    PickSpec(s.reg, s.xt, Requests(s));
    hide Pick;
    if 0 in e * Owners(s) {
    } else if 0 in e && e * Owners(s) == {} && Pick(s.reg, s.xt, Requests(s)) != -1 {
      OnePerDistance(s.xt.last, Pick(s.reg, s.xt, Requests(s)));
    }
  }

  lemma OnePerDistance(last: int, p: int)
    requires 0 <= p < 4
    ensures Distance(last, p) == Distance(last, 0) ==> p == 0
  {
  }

  // ----- ownership -----

  function Owners(s: State): set<int> {
    s.xt.demand + s.xt.block
  }

  /** A demand or block channel that has begun is picked again: it owns the bus until its last unit. */
  lemma OwnershipBegins(cf: Config, s: State)
    requires Sane(s) && 0 <= Picked(s) < 4 && s.prog[Picked(s)].mode / 64 % 4 in {0, 2}
    requires !Terminal(Moved(cf, s, Picked(s)), Picked(s))
    ensures var p := Picked(s);
            var t := FinishTransfer(Moved(cf, s, p), p);
            Picked(t) == p && p in Owners(t) && t.xt.dack == {p}
  {
    var p := Picked(s);
    var t := FinishTransfer(Moved(cf, s, p), p);
    PickSpec(s.reg, s.xt, Requests(s));
    PickSpec(t.reg, t.xt, Requests(t));
    assert Owners(t) == Owners(s) + {p} && t.reg.mask == s.reg.mask && t.reg.enabled == s.reg.enabled;
    assert Requests(t) == Requests(s);
    hide Pick, FinishTransfer, Requests;
    assert p in Eligible(t.reg, Requests(t)) * Owners(t);
  }

  /** The owner that is picked loses the bus to no line but its own: a block owner to none, a demand owner exactly
      when its own line falls -- unless software also asks for the channel, and nobody it must now give way to. */
  lemma OwnerKeepsPick(s: State, d: int, on: bool)
    requires Sane(s) && 0 <= Picked(s) < 4 && Picked(s) in Owners(s) && 0 <= d < 8
    ensures var p, e := Picked(s), Eligible(s.reg, Requests(s));
            var falls := d == p && !on && p in s.xt.demand;
            Picked(DrqLine(s, d, on)) == p <==>
              !falls || (p in s.xt.sw && (e - {p}) * Owners(s) == {} &&
                         if s.reg.command / 16 % 2 == 1 then e == {p} else forall o :: o in e ==> p <= o)
  {
    var p, t := Picked(s), DrqLine(s, d, on);
    PickSpec(s.reg, s.xt, Requests(s));
    PickSpec(t.reg, t.xt, Requests(t));
    if d == p && !on && p in s.xt.demand {
      OwnerReleased(s, p);
    } else {
      OwnerStays(s, p, d, on);
    }
  }

  lemma OwnerStays(s: State, p: int, d: int, on: bool)
    requires Sane(s) && 0 <= p < 4 && p == Picked(s) && p in Owners(s) && !(d == p && !on && p in s.xt.demand)
    ensures Picked(DrqLine(s, d, on)) == p
  {
    var t := DrqLine(s, d, on);
    PickSpec(s.reg, s.xt, Requests(s));
    PickSpec(t.reg, t.xt, Requests(t));
    var e, f := Eligible(s.reg, Requests(s)), Eligible(t.reg, Requests(t));
    assert p in e * Owners(s);
    assert p in f * Owners(t);
    assert f * Owners(t) <= e * Owners(s);
  }

  lemma OwnerReleased(s: State, p: int)
    requires Sane(s) && 0 <= p < 4 && p == Picked(s) && p in s.xt.demand
    ensures var e := Eligible(s.reg, Requests(s));
            Picked(DrqLine(s, p, false)) == p <==>
              p in s.xt.sw && (e - {p}) * Owners(s) == {} &&
              if s.reg.command / 16 % 2 == 1 then e == {p} else forall o :: o in e ==> p <= o
  {
    var t := DrqLine(s, p, false);
    var e, f := Eligible(s.reg, Requests(s)), Eligible(t.reg, Requests(t));
    PickSpec(s.reg, s.xt, Requests(s));
    PickSpec(t.reg, t.xt, Requests(t));
    hide Pick;
    assert t.reg.mask == s.reg.mask && t.reg.enabled == s.reg.enabled && t.reg.command == s.reg.command;
    assert f == if p in s.xt.sw then e else e - {p};
    assert f * Owners(t) == (e - {p}) * Owners(s);
    hide Requests;
    if p in s.xt.sw && (e - {p}) * Owners(s) == {} {
      assert p in f && Picked(t) in f;
      if s.reg.command / 16 % 2 == 1 {
        assert t.xt.last == p;
        if e != {p} {
          var o :| o in e && o != p;
          assert o in f && o in ALL;
        }
      }
    }
  }

  /** Reconciling refresh after the change does not move the pick, unless channel 0 is then served on the spot. */
  lemma SetDrqKeepsPick(cf: Config, s: State, d: int, on: bool)
    requires Sane(s) && 0 <= d < 8
    requires cf.clocked || Picked(DrqLine(s, d, on)) != 0
    ensures Picked(SetDrq(cf, s, d, on)) == Picked(DrqLine(s, d, on))
  {
    hide Pick, DrqLine, RefreshDack;
  }

  /** The last unit gives the bus back: ownership, acknowledge and software request are withdrawn. */
  lemma LastUnitReleases(s: State, c: int)
    requires Sane(s) && 0 <= c < 4 && Terminal(s, c)
    ensures var x := FinishTransfer(s, c).xt;
            c !in x.demand && c !in x.block && c !in x.sw && c !in x.dack
  {
  }

  /** A falling line ends the claim of a demand channel. */
  lemma FallingLineReleases(s: State, c: int)
    requires 0 <= c < 4 && c in s.xt.demand && c !in s.xt.sw
    ensures c !in Requests(DrqLine(s, c, false))
  {
  }

  /** After a master clear nothing is served, while a latched refresh request keeps its line up. */
  lemma ClearSilences(s: State, c: int)
    requires Sane(s)
    ensures !CanService(MasterClear(s), c) && (s.ref.queued ==> 0 in MasterClear(s).reg.rqPc)
  {
  }
}
