/** What a received REGISTER or CONFIG comes to, whatever its words and their
    order: which messages are taken, and what they say (proto.c). */
module ProtoFields {
  import opened Wrappers
  import opened Proto
  import ServerTable

  /** The values of a field, in the order of its words. */
  function Values(ws: seq<string>, key: string): (vs: seq<string>)
    decreases |ws|
  {
    if ws == [] then [] else One(Value(ws[0], key)) + Values(ws[1..], key)
  }

  function One(v: Option<string>): seq<string> {
    if v.Some? then [v.value] else []
  }

  /** The last value, or the one there was before. */
  function Last(vs: seq<string>, before: string): string {
    if vs == [] then before else vs[|vs| - 1]
  }

  lemma LastOfMore(a: seq<string>, b: seq<string>, before: string)
    ensures Last(a + b, before) == Last(b, Last(a, before))
  {
  }

  predicate IsKey(key: string) {
    forall i | 0 <= i < |key| :: key[i] != '='
  }

  lemma KeyEnds(w: string, key: string)
    requires IsKey(key)
    ensures Value(w, key).Some? ==>
              |key| < |w| && w[|key|] == '=' && w[..|key|] == key && forall i | 0 <= i < |key| :: w[i] != '='
  {
    if Value(w, key).Some? {
      assert forall i | 0 <= i < |key| :: w[i] == w[..|key|][i];
    }
  }

  /** A word is of one field. */
  lemma OneField(w: string, a: string, b: string)
    requires IsKey(a) && IsKey(b) && a != b
    ensures !(Value(w, a).Some? && Value(w, b).Some?)
  {
    KeyEnds(w, a);
    KeyEnds(w, b);
    hide Value;
  }

  lemma Keys()
    ensures IsKey("VER") && IsKey("MODE") && IsKey("CLIENT_ID") && IsKey("LOCAL_IP")
    ensures IsKey("LOCAL_CIDR") && IsKey("GATEWAY_IP") && IsKey("ROUTE_CIDR") && IsKey("MTU")
  {
  }

  /* ---- CONFIG ---- */

  /** A word a CONFIG may have: a known field whose value is in order. */
  predicate ConfigWord(w: string, isIp: string -> bool) {
    || Value(w, "VER").Some?
    || (Value(w, "CLIENT_ID").Some? && |Value(w, "CLIENT_ID").value| < CLIENT_ID_LEN)
    || (Value(w, "LOCAL_CIDR").Some? && |Value(w, "LOCAL_CIDR").value| < CIDR_LEN)
    || (Value(w, "GATEWAY_IP").Some? && |Value(w, "GATEWAY_IP").value| < IP_LEN)
    || (Value(w, "ROUTE_CIDR").Some? && RouteOk(Value(w, "ROUTE_CIDR").value, isIp))
    || (Value(w, "MTU").Some? && Mtu(Value(w, "MTU").value).Some?)
  }

  /** The last MTU that is one, or the one there was before. */
  function LastMtu(vs: seq<string>, before: nat): nat {
    if vs == [] then before
    else if Mtu(vs[|vs| - 1]).Some? then Mtu(vs[|vs| - 1]).value
    else LastMtu(vs[..|vs| - 1], before)
  }

  /** The settings with what the words say put in. */
  function Said(x: Settings, ws: seq<string>): Settings {
    Settings(Profile(Last(Values(ws, "LOCAL_CIDR"), x.profile.localCidr),
                     Last(Values(ws, "GATEWAY_IP"), x.profile.gatewayIp),
                     LastMtu(Values(ws, "MTU"), x.profile.mtu),
                     x.profile.routes + Values(ws, "ROUTE_CIDR")),
             Last(Values(ws, "CLIENT_ID"), x.clientId))
  }

  lemma FieldsApart(w: string)
    ensures Value(w, "CLIENT_ID").Some? ==> Value(w, "LOCAL_CIDR").None? && Value(w, "GATEWAY_IP").None?
    ensures Value(w, "CLIENT_ID").Some? ==> Value(w, "ROUTE_CIDR").None? && Value(w, "MTU").None? && Value(w, "VER").None?
    ensures Value(w, "LOCAL_CIDR").Some? ==> Value(w, "GATEWAY_IP").None? && Value(w, "ROUTE_CIDR").None?
    ensures Value(w, "LOCAL_CIDR").Some? ==> Value(w, "MTU").None? && Value(w, "VER").None?
    ensures Value(w, "GATEWAY_IP").Some? ==> Value(w, "ROUTE_CIDR").None? && Value(w, "MTU").None? && Value(w, "VER").None?
    ensures Value(w, "ROUTE_CIDR").Some? ==> Value(w, "MTU").None? && Value(w, "VER").None?
    ensures Value(w, "MTU").Some? ==> Value(w, "VER").None?
  {
    Keys();
    hide Value, IsKey;
    OneField(w, "CLIENT_ID", "LOCAL_CIDR");
    OneField(w, "CLIENT_ID", "GATEWAY_IP");
    OneField(w, "CLIENT_ID", "ROUTE_CIDR");
    OneField(w, "CLIENT_ID", "MTU");
    OneField(w, "CLIENT_ID", "VER");
    OneField(w, "LOCAL_CIDR", "GATEWAY_IP");
    OneField(w, "LOCAL_CIDR", "ROUTE_CIDR");
    OneField(w, "LOCAL_CIDR", "MTU");
    OneField(w, "LOCAL_CIDR", "VER");
    OneField(w, "GATEWAY_IP", "ROUTE_CIDR");
    OneField(w, "GATEWAY_IP", "MTU");
    OneField(w, "GATEWAY_IP", "VER");
    OneField(w, "ROUTE_CIDR", "MTU");
    OneField(w, "ROUTE_CIDR", "VER");
    OneField(w, "MTU", "VER");
  }

  lemma OneWord(w: string, key: string)
    ensures Values([w], key) == One(Value(w, key))
  {
    assert [w][1..] == [] && Values([], key) == [];
  }

  lemma TakeWordSays(x: Settings, w: string, isIp: string -> bool)
    ensures TakeWord(x, w, isIp) ==
              if ConfigWord(w, isIp) && (Value(w, "ROUTE_CIDR").Some? ==> |x.profile.routes| < MAX_ROUTES)
              then Some(Said(x, [w])) else None
  {
    FieldsApart(w);
    OneWord(w, "CLIENT_ID");
    OneWord(w, "LOCAL_CIDR");
    OneWord(w, "GATEWAY_IP");
    OneWord(w, "ROUTE_CIDR");
    OneWord(w, "MTU");
    assert x.profile.routes + [] == x.profile.routes;
    hide Value, Values, RouteOk, Mtu;
  }

  lemma MoreValues(w: string, ws: seq<string>, key: string)
    ensures Values([w] + ws, key) == Values([w], key) + Values(ws, key)
  {
    OneWord(w, key);
    assert ([w] + ws)[1..] == ws;
  }

  lemma LastSaid(w: string, ws: seq<string>, key: string, before: string)
    ensures Last(Values(ws, key), Last(Values([w], key), before)) == Last(Values([w] + ws, key), before)
  {
    MoreValues(w, ws, key);
    LastOfMore(Values([w], key), Values(ws, key), before);
  }

  lemma SaidMore(x: Settings, w: string, ws: seq<string>)
    ensures Said(Said(x, [w]), ws) == Said(x, [w] + ws)
  {
    LastSaid(w, ws, "CLIENT_ID", x.clientId);
    LastSaid(w, ws, "LOCAL_CIDR", x.profile.localCidr);
    LastSaid(w, ws, "GATEWAY_IP", x.profile.gatewayIp);
    MoreValues(w, ws, "ROUTE_CIDR");
    MoreValues(w, ws, "MTU");
    MtuOfMore(Values([w], "MTU"), Values(ws, "MTU"), x.profile.mtu);
    hide Values, LastMtu, Last;
    var a, b := Values([w], "ROUTE_CIDR"), Values(ws, "ROUTE_CIDR");
    assert x.profile.routes + (a + b) == x.profile.routes + a + b;
  }

  lemma {:induction false} MtuOfMore(a: seq<string>, b: seq<string>, before: nat)
    ensures LastMtu(a + b, before) == LastMtu(b, LastMtu(a, before))
    decreases |b|
  {
    hide Mtu;
    if b == [] {
      assert a + b == a;
    } else {
      assert (a + b)[..|a + b| - 1] == a + b[..|b| - 1];
      MtuOfMore(a, b[..|b| - 1], before);
    }
  }

  predicate ConfigWordsOk(ws: seq<string>, isIp: string -> bool) {
    forall i | 0 <= i < |ws| :: ConfigWord(ws[i], isIp)
  }

  lemma WordsOfMore(w: string, ws: seq<string>, isIp: string -> bool)
    ensures ConfigWordsOk([w] + ws, isIp) <==> ConfigWord(w, isIp) && ConfigWordsOk(ws, isIp)
  {
    var all := [w] + ws;
    assert all[0] == w && forall i | 0 <= i < |ws| :: all[i + 1] == ws[i];
    hide ConfigWord;
  }

  /** The words of a CONFIG that are taken, and what they come to. */
  lemma {:induction false} TakesExactly(x: Settings, ws: seq<string>, isIp: string -> bool)
    requires |x.profile.routes| <= MAX_ROUTES
    ensures TakeWords(x, ws, isIp) ==
              if ConfigWordsOk(ws, isIp) && |x.profile.routes| + |Values(ws, "ROUTE_CIDR")| <= MAX_ROUTES
              then Some(Said(x, ws)) else None
    decreases |ws|
  {
    if ws == [] {
      SaidNothing(x);
    } else {
      var w, rest := ws[0], ws[1..];
      TakeWordSays(x, w, isIp);
      assert ws == [w] + rest;
      SaidMore(x, w, rest);
      MoreValues(w, rest, "ROUTE_CIDR");
      WordsOfMore(w, rest, isIp);
      RoutesSaid(x, w);
      hide TakeWord, ConfigWord, ConfigWordsOk, Said, Value, Values;
      if TakeWord(x, w, isIp).Some? {
        TakesExactly(Said(x, [w]), rest, isIp);
      }
    }
  }

  lemma SaidNothing(x: Settings)
    ensures Said(x, []) == x
  {
    assert forall key: string :: Values([], key) == [];
  }

  lemma RoutesSaid(x: Settings, w: string)
    ensures Values([w], "ROUTE_CIDR") == One(Value(w, "ROUTE_CIDR"))
    ensures |Said(x, [w]).profile.routes| == |x.profile.routes| + |One(Value(w, "ROUTE_CIDR"))|
  {
    OneWord(w, "ROUTE_CIDR");
    hide Values;
  }

  lemma SaidApplies(before: Settings, ws: seq<string>)
    requires Values(ws, "LOCAL_CIDR") != [] && Values(ws, "GATEWAY_IP") != []
    ensures Applied(before, Said(Settings(EMPTY_PROFILE, before.clientId), ws))
         == Said(before.(profile := before.profile.(routes := [])), ws)
  {
    NoEmptyValue(ws, "CLIENT_ID");
    MtuOrBefore(Values(ws, "MTU"), before.profile.mtu);
    hide Values, LastMtu;
  }

  lemma {:induction false} MtuOrBefore(vs: seq<string>, before: nat)
    ensures LastMtu(vs, before) == if LastMtu(vs, 0) > 0 then LastMtu(vs, 0) else before
  {
    if vs != [] {
      MtuOrBefore(vs[..|vs| - 1], before);
    }
  }

  lemma {:induction false} NoEmptyValue(ws: seq<string>, key: string)
    ensures forall i | 0 <= i < |Values(ws, key)| :: Values(ws, key)[i] != ""
    decreases |ws|
  {
    if ws != [] {
      NoEmptyValue(ws[1..], key);
    }
  }

  predicate ConfigOk(own: string, ws: seq<string>, isIp: string -> bool) {
    && |ws| >= 2 && ws[0] == "CAMEX" && ws[1] == "CONFIG"
    && ConfigWordsOk(ws[2..], isIp)
    && var routes, cidrs, ips, ids := Values(ws[2..], "ROUTE_CIDR"), Values(ws[2..], "LOCAL_CIDR"),
                                      Values(ws[2..], "GATEWAY_IP"), Values(ws[2..], "CLIENT_ID");
       && |routes| <= 16
       && cidrs != [] && CidrOk(cidrs[|cidrs| - 1], isIp)
       && ips != [] && isIp(ips[|ips| - 1])
       && (own == "" || ids == [] || ServerTable.SameId(own, ids[|ids| - 1]))
  }

  /** Exactly which CONFIGs are taken, and what they come to. The words are
      known fields in any order, with values in order, and at most 16 routes;
      of each other field the last word counts, an address and a gateway must
      be there, and an ID must be the client's if it has one. All routes are
      taken in their order; MTU and ID stay if none is given. */
  lemma ConfigExactly(before: Settings, ws: seq<string>, isIp: string -> bool)
    ensures ParsedConfig(before, ws, isIp) ==
              if ConfigOk(before.clientId, ws, isIp)
              then Some(Said(before.(profile := before.profile.(routes := [])), ws[2..])) else None
  {
    if |ws| >= 2 {
      var x := Settings(EMPTY_PROFILE, before.clientId);
      TakesExactly(x, ws[2..], isIp);
      NoEmptyValue(ws[2..], "GATEWAY_IP");
      NoEmptyValue(ws[2..], "CLIENT_ID");
      NotACidr(isIp);
      SameIdSelf(before.clientId);
      if Values(ws[2..], "LOCAL_CIDR") != [] && Values(ws[2..], "GATEWAY_IP") != [] {
        SaidApplies(before, ws[2..]);
      }
      hide TakeWords, Values, CidrOk, ConfigWordsOk, Applied, ServerTable.SameId;
    }
  }

  lemma NotACidr(isIp: string -> bool)
    ensures !CidrOk("", isIp)
  {
  }

  lemma SameIdSelf(id: string)
    ensures ServerTable.SameId(id, id)
  {
  }

  /* ---- REGISTER ---- */

  predicate IsVersion(w: string) {
    Value(w, "VER").Some? && Unsigned32(Value(w, "VER").value).Some? && Unsigned32(Value(w, "VER").value).value <= PROTO_VER
  }

  predicate IsMode(w: string, mode: string) {
    Value(w, "MODE").Some? && ServerTable.SameId(Value(w, "MODE").value, mode)
  }

  /** A word of no field. */
  predicate Bare(w: string) {
    Value(w, "VER").None? && Value(w, "MODE").None? && Value(w, "CLIENT_ID").None? && Value(w, "LOCAL_IP").None?
  }

  /** A word that is in order; one of no field is only where it `may` be. */
  predicate RegisterWord(w: string, may: bool, isIp: string -> bool) {
    || IsVersion(w) || IsMode(w, "AUTO") || IsMode(w, "MANUAL")
    || (Value(w, "CLIENT_ID").Some? && |Value(w, "CLIENT_ID").value| < CLIENT_ID_LEN)
    || (Value(w, "LOCAL_IP").Some? && |Value(w, "LOCAL_IP").value| < IP_LEN)
    || (Bare(w) && may && isIp(w) && 0 < |w| < IP_LEN)
  }

  predicate OnlyVersions(ws: seq<string>) {
    forall i | 0 <= i < |ws| :: Value(ws[i], "VER").Some?
  }

  /** Every word is in order, and one of no field comes after versions only. */
  predicate RegisterWordsOk(ws: seq<string>, may: bool, isIp: string -> bool) {
    forall i | 0 <= i < |ws| :: RegisterWord(ws[i], may && OnlyVersions(ws[..i]), isIp)
  }

  /** The addresses: values of LOCAL_IP, and words of no field. */
  function Addresses(ws: seq<string>): seq<string>
    decreases |ws|
  {
    if ws == [] then []
    else (if Bare(ws[0]) then [ws[0]] else One(Value(ws[0], "LOCAL_IP"))) + Addresses(ws[1..])
  }

  /** AUTO exactly if the last MODE says so. */
  predicate LastAuto(modes: seq<string>, before: bool) {
    if modes == [] then before else ServerTable.SameId(modes[|modes| - 1], "AUTO")
  }

  function RegisterSaid(r: Register, ws: seq<string>): Register {
    Register(LastAuto(Values(ws, "MODE"), r.auto), Last(Values(ws, "CLIENT_ID"), r.clientId),
             Last(Addresses(ws), r.localIp))
  }

  /** Nothing but versions was read so far. */
  predicate Unset(x: Reading) {
    !x.sawMode && x.r.clientId == "" && x.r.localIp == ""
  }

  lemma RegisterFieldsApart(w: string)
    ensures Value(w, "VER").Some? ==> Value(w, "MODE").None? && Value(w, "CLIENT_ID").None? && Value(w, "LOCAL_IP").None?
    ensures Value(w, "MODE").Some? ==> Value(w, "CLIENT_ID").None? && Value(w, "LOCAL_IP").None?
    ensures Value(w, "CLIENT_ID").Some? ==> Value(w, "LOCAL_IP").None?
  {
    Keys();
    hide Value, IsKey;
    OneField(w, "VER", "MODE");
    OneField(w, "VER", "CLIENT_ID");
    OneField(w, "VER", "LOCAL_IP");
    OneField(w, "MODE", "CLIENT_ID");
    OneField(w, "MODE", "LOCAL_IP");
    OneField(w, "CLIENT_ID", "LOCAL_IP");
  }

  lemma ModesDiffer(v: string)
    ensures !(ServerTable.SameId(v, "AUTO") && ServerTable.SameId(v, "MANUAL"))
  {
    assert |ServerTable.Fold("AUTO")| == 4 && |ServerTable.Fold("MANUAL")| == 6;
  }

  lemma NotEmptyValue(w: string, key: string)
    ensures Value(w, key).Some? ==> Value(w, key).value != ""
  {
  }

  /** What one word does to the reading. */
  lemma ReadWordSays(x: Reading, w: string, isIp: string -> bool)
    requires Unset(x) ==> !x.r.auto
    ensures var y := ReadWord(x, w, isIp);
            if RegisterWord(w, Unset(x), isIp) then
              && y.Some? && y.value.r == RegisterSaid(x.r, [w])
              && (Unset(y.value) <==> Unset(x) && Value(w, "VER").Some?) && (Unset(y.value) ==> !y.value.r.auto)
            else y == None
  {
    RegisterFieldsApart(w);
    OneWord(w, "MODE");
    OneWord(w, "CLIENT_ID");
    assert [w][1..] == [] && Addresses([]) == [];
    if Value(w, "MODE").Some? {
      ModesDiffer(Value(w, "MODE").value);
    }
    NotEmptyValue(w, "CLIENT_ID");
    NotEmptyValue(w, "LOCAL_IP");
    hide Value, Values, Unsigned32, ServerTable.SameId;
  }

  lemma RegisterSaidMore(r: Register, w: string, ws: seq<string>)
    ensures RegisterSaid(RegisterSaid(r, [w]), ws) == RegisterSaid(r, [w] + ws)
  {
    LastSaid(w, ws, "CLIENT_ID", r.clientId);
    MoreValues(w, ws, "MODE");
    assert ([w] + ws)[1..] == ws && [w][1..] == [];
    assert Addresses([w] + ws) == Addresses([w]) + Addresses(ws);
    LastOfMore(Addresses([w]), Addresses(ws), r.localIp);
    hide Values, Last, Addresses, ServerTable.SameId;
  }

  lemma VersionsMore(w: string, ws: seq<string>)
    ensures OnlyVersions([w] + ws) <==> Value(w, "VER").Some? && OnlyVersions(ws)
  {
    hide Value;
    var all := [w] + ws;
    assert all[0] == w && forall i | 0 <= i < |ws| :: all[i + 1] == ws[i];
  }

  lemma RegisterWordsMore(w: string, ws: seq<string>, may: bool, isIp: string -> bool)
    ensures RegisterWordsOk([w] + ws, may, isIp)
       <==> RegisterWord(w, may, isIp) && RegisterWordsOk(ws, may && Value(w, "VER").Some?, isIp)
  {
    var all := [w] + ws;
    assert all[..0] == [] && OnlyVersions([]);
    hide RegisterWord, Value, OnlyVersions;
    forall i | 0 <= i < |ws|
      ensures all[i + 1] == ws[i] && (OnlyVersions(all[..i + 1]) <==> Value(w, "VER").Some? && OnlyVersions(ws[..i]))
    {
      assert all[..i + 1] == [w] + ws[..i];
      VersionsMore(w, ws[..i]);
    }
    if RegisterWord(w, may, isIp) && RegisterWordsOk(ws, may && Value(w, "VER").Some?, isIp) {
      forall i | 0 <= i < |all|
        ensures RegisterWord(all[i], may && OnlyVersions(all[..i]), isIp)
      {
        if i > 0 {
          assert all[i] == ws[i - 1];
        }
      }
    }
    if RegisterWordsOk(all, may, isIp) {
      assert RegisterWord(all[0], may && OnlyVersions(all[..0]), isIp);
      forall i | 0 <= i < |ws|
        ensures RegisterWord(ws[i], may && Value(w, "VER").Some? && OnlyVersions(ws[..i]), isIp)
      {
        assert RegisterWord(all[i + 1], may && OnlyVersions(all[..i + 1]), isIp);
      }
    }
  }

  /** The words of a REGISTER that are read, and what they come to. */
  lemma {:induction false} ReadsExactly(x: Reading, ws: seq<string>, isIp: string -> bool)
    requires Unset(x) ==> !x.r.auto
    ensures var y := ReadWords(x, ws, isIp);
            if RegisterWordsOk(ws, Unset(x), isIp) then y.Some? && y.value.r == RegisterSaid(x.r, ws) else y == None
    decreases |ws|
  {
    if ws == [] {
      assert Values([], "MODE") == [] && Values([], "CLIENT_ID") == [] && Addresses([]) == [];
    } else {
      var w, rest := ws[0], ws[1..];
      ReadWordSays(x, w, isIp);
      assert ws == [w] + rest;
      RegisterSaidMore(x.r, w, rest);
      RegisterWordsMore(w, rest, Unset(x), isIp);
      var y := ReadWord(x, w, isIp);
      hide ReadWord, RegisterWord, RegisterWordsOk, RegisterSaid, Unset, Value;
      if y.Some? {
        ReadsExactly(y.value, rest, isIp);
      }
    }
  }

  /** Exactly which REGISTERs are read, and what they say. Fields come in any
      order with values in order, and of each the last word counts; an address
      may also stand alone, but only after nothing else than versions. With the
      mode AUTO there must be an ID, without it an address. */
  lemma RegisterExactly(ws: seq<string>, isIp: string -> bool)
    ensures ParsedRegister(ws, isIp) ==
              if |ws| >= 2 && ws[0] == "CAMEX" && ws[1] == "REGISTER" && RegisterWordsOk(ws[2..], true, isIp) then
                var auto := LastAuto(Values(ws[2..], "MODE"), false);
                var ids, ips := Values(ws[2..], "CLIENT_ID"), Addresses(ws[2..]);
                if auto && ids != [] then Some(Register(true, Last(ids, ""), Last(ips, "")))
                else if !auto && ips != [] then Some(Register(false, Last(ids, ""), Last(ips, "")))
                else None
              else None
  {
    if |ws| >= 2 {
      ReadsExactly(NOTHING, ws[2..], isIp);
      NoEmptyValue(ws[2..], "CLIENT_ID");
      if RegisterWordsOk(ws[2..], true, isIp) {
        NoEmptyAddress(ws[2..], isIp);
      }
      hide ReadWords, Values, Addresses, RegisterWordsOk;
    }
  }

  lemma {:induction false} NoEmptyAddress(ws: seq<string>, isIp: string -> bool)
    requires forall i | 0 <= i < |ws| :: ws[i] != "" || !Bare(ws[i])
    ensures forall i | 0 <= i < |Addresses(ws)| :: Addresses(ws)[i] != ""
    decreases |ws|
  {
    if ws != [] {
      NotEmptyValue(ws[0], "LOCAL_IP");
      NoEmptyAddress(ws[1..], isIp);
      hide Value;
    }
  }
}
