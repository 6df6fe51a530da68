/**
 * What SNMP normalization promises: a v1 trap and its v2c translation mean the
 * same alert, event ids identify, and fault and clear traps share a fingerprint.
 */
module SnmpProofs {
  import opened Wrappers
  import opened Text
  import opened Alerts
  import AlertRuns
  import opened Snmp

  // ----- Slugs -----

  ghost predicate Word(s: string) {
    forall i :: 0 <= i < |s| ==> SlugChar(s[i]) || s[i] == '_'
  }

  ghost predicate NoDoubleUnderscore(s: string) {
    forall i :: 0 <= i < |s| - 1 ==> s[i] != '_' || s[i + 1] != '_'
  }

  /** What a slug looks like. */
  ghost predicate Tidy(s: string) {
    Word(s) && NoDoubleUnderscore(s) && (s != [] ==> s[0] != '_' && s[|s| - 1] != '_')
  }

  lemma {:induction false} CollapseShape(s: string)
    ensures Word(Collapse(s)) && NoDoubleUnderscore(Collapse(s))
  {
    if s != [] { CollapseShape(s[..|s| - 1]); }
  }

  lemma {:induction false} StripLeftShape(s: string)
    requires Word(s) && NoDoubleUnderscore(s)
    ensures var r := StripLeft(s); Word(r) && NoDoubleUnderscore(r) && (r != [] ==> r[0] != '_')
  {
    if s != [] && s[0] == '_' { StripLeftShape(s[1..]); }
  }

  lemma {:induction false} StripRightShape(s: string)
    requires Word(s) && NoDoubleUnderscore(s) && (s != [] ==> s[0] != '_')
    ensures Tidy(StripRight(s))
  {
    if s != [] && s[|s| - 1] == '_' { StripRightShape(s[..|s| - 1]); }
  }

  lemma {:induction false} SlugShape(host: Host, s: string)
    ensures Tidy(Slug(host, s)) && '-' !in Slug(host, s)
    ensures forall c :: c in Slug(host, s) ==> 'a' <= c <= 'z' || '0' <= c <= '9' || c == '_'
  {
    var low := host.lower(Trim(s));
    var c := Collapse(low);
    CollapseShape(low);
    StripLeftShape(c);
    StripRightShape(StripLeft(c));
    TidyHasNoHyphen(Slug(host, s));
  }

  lemma TidyHasNoHyphen(s: string)
    requires Tidy(s)
    ensures '-' !in s
  {
  }

  lemma {:induction false} CollapseFixed(s: string)
    requires Word(s) && NoDoubleUnderscore(s)
    ensures Collapse(s) == s
  {
    if s != [] {
      CollapseFixed(s[..|s| - 1]);
      assert s == s[..|s| - 1] + [s[|s| - 1]];
    }
  }

  /** Slugging a slug changes nothing, on any runtime that lower-cases faithfully. */
  lemma {:induction false} SlugIdempotent(host: Host, s: string)
    requires Faithful(host)
    ensures Slug(host, Slug(host, s)) == Slug(host, s)
  {
    SlugShape(host, s);
    TidyFixed(host, Slug(host, s));
  }

  lemma {:induction false} TidyFixed(host: Host, r: string)
    requires Faithful(host) && Tidy(r)
    ensures Slug(host, r) == r
  {
    hide Trim, Collapse, Faithful;
    TidyEnds(r);
    TrimFixed(r);
    CollapseFixed(r);
    LowerFixed(host, r);
  }

  lemma TidyEnds(r: string)
    requires Tidy(r)
    ensures r == [] || (!IsSpace(r[0]) && !IsSpace(r[|r| - 1]))
    ensures StripRight(StripLeft(r)) == r && AllPlain(r)
  {
  }

  ghost predicate AllPlain(s: string) {
    forall i :: 0 <= i < |s| ==> s[i] <= '~' && !('A' <= s[i] <= 'Z')
  }

  lemma LowerFixed(host: Host, s: string)
    requires Faithful(host) && AllPlain(s)
    ensures host.lower(s) == s
  {
  }

  /** A word of lower-case letters and digits is its own slug. */
  lemma SlugOfWord(host: Host, s: string)
    requires Faithful(host) && forall i :: 0 <= i < |s| ==> 'a' <= s[i] <= 'z' || '0' <= s[i] <= '9'
    ensures Slug(host, s) == s
  {
    assert Tidy(s);
    hide Slug, Faithful;
    TidyFixed(host, s);
  }

  lemma {:induction false} CollapseFirst(s: string)
    requires s != [] && SlugChar(s[0])
    ensures Collapse(s) != [] && Collapse(s)[0] == s[0]
  {
    if |s| > 1 { CollapseFirst(s[..|s| - 1]); } else { assert s[..0] == []; }
  }

  lemma {:induction false} StripRightFirst(s: string)
    requires s != [] && s[0] != '_'
    ensures StripRight(s) != [] && StripRight(s)[0] == s[0]
  {
    if s[|s| - 1] == '_' { StripRightFirst(s[..|s| - 1]); }
  }

  /** A text that begins with a letter or digit begins its slug with it. */
  lemma SlugFirst(host: Host, s: string)
    requires Faithful(host) && AllPlain(s) && s != [] && SlugChar(s[0]) && !IsSpace(s[|s| - 1])
    ensures Slug(host, s) != [] && Slug(host, s)[0] == s[0]
  {
    hide Trim, Collapse, Faithful;
    TrimFixed(s);
    LowerFixed(host, s);
    CollapseFirst(s);
    StripRightFirst(Collapse(s));
  }

  ghost predicate IsRun(w: string) {
    w != [] && forall i :: 0 <= i < |w| ==> SlugChar(w[i])
  }

  ghost predicate AllRuns(ws: seq<string>) {
    forall i :: 0 <= i < |ws| ==> IsRun(ws[i])
  }

  ghost predicate EndsInWord(s: string) {
    s != [] && SlugChar(s[|s| - 1])
  }

  /** The maximal runs of lower-case letters and digits, in order. */
  ghost function Words(s: string): (ws: seq<string>)
    ensures EndsInWord(s) ==> ws != []
    ensures AllRuns(ws)
  {
    if s == [] then []
    else
      var front, c := s[..|s| - 1], s[|s| - 1];
      var ws := Words(front);
      if !SlugChar(c) then ws
      else if EndsInWord(front) then
        assert IsRun(ws[|ws| - 1]);
        ws[..|ws| - 1] + [ws[|ws| - 1] + [c]]
      else ws + [[c]]
  }

  lemma JoinExtends(ws: seq<string>, c: char)
    requires ws != []
    ensures Join(ws[..|ws| - 1] + [ws[|ws| - 1] + [c]], "_") == Join(ws, "_") + [c]
  {
    hide Join;
    var front, last := ws[..|ws| - 1], ws[|ws| - 1];
    assert ws == front + [last];
    JoinAdds(front, last);
    JoinAdds(front, last + [c]);
    Associates(Join(front, "_") + (if front == [] then "" else "_"), last, [c]);
  }

  lemma Associates(a: string, b: string, c: string)
    ensures a + (b + c) == a + b + c
  {
  }

  lemma JoinAdds(ws: seq<string>, w: string)
    ensures Join(ws + [w], "_") == Join(ws, "_") + (if ws == [] then "" else "_") + w
  {
    assert (ws + [w])[..|ws|] == ws;
    if ws == [] { assert "" + "" + w == w; }
  }

  ghost function Lead(s: string): string { if s != [] && !SlugChar(s[0]) then "_" else "" }

  /** The words with an underscore for what comes before the first and one for what comes after the last. */
  ghost function Framed(s: string): string {
    Lead(s) + Join(Words(s), "_") + if Words(s) != [] && !EndsInWord(s) then "_" else ""
  }

  /** The words after one more letter: it extends the last word, or starts a new one. */
  lemma WordsLetter(front: string, c: char)
    requires SlugChar(c)
    ensures EndsInWord(front + [c]) && Lead(front + [c]) == Lead(front)
    ensures Words(front + [c]) ==
            if EndsInWord(front) then Words(front)[..|Words(front)| - 1] + [Words(front)[|Words(front)| - 1] + [c]]
            else Words(front) + [[c]]
  {
    assert (front + [c])[..|front|] == front;
  }

  /** One more letter. */
  lemma FramedLetter(front: string, c: char)
    requires SlugChar(c)
    ensures Framed(front + [c]) == Framed(front) + [c]
  {
    var ws := Words(front);
    WordsLetter(front, c);
    JoinNone();
    hide Words, Join, Lead, SlugChar;
    if EndsInWord(front) {
      JoinExtends(ws, c);
    } else {
      JoinAdds(ws, [c]);
    }
  }

  lemma JoinNone()
    ensures Join([], "_") == ""
  {
  }

  /** Collapsing keeps the words, and each gap becomes one underscore. */
  lemma {:induction false} CollapseIsWords(s: string)
    ensures Collapse(s) == Framed(s)
  {
    if s != [] {
      var front, c := s[..|s| - 1], s[|s| - 1];
      CollapseIsWords(front);
      assert s == front + [c];
      if SlugChar(c) {
        FramedLetter(front, c);
      } else {
        assert Words(s) == Words(front);
        CollapseGap(front, c);
        hide Words, Join;
        assert front != [] ==> Lead(s) == Lead(front);
      }
    }
  }

  /** Collapsed text ends in an underscore exactly when the text ends in a gap. */
  lemma CollapseGap(s: string, c: char)
    requires !SlugChar(c)
    ensures Collapse(s + [c]) == if s == [] || EndsInWord(s) then Collapse(s) + "_" else Collapse(s)
  {
    assert (s + [c])[..|s|] == s;
  }

  lemma {:induction false} JoinEnds(ws: seq<string>)
    requires ws != [] && AllRuns(ws)
    ensures var j := Join(ws, "_"); j != [] && j[0] != '_' && j[|j| - 1] != '_'
  {
    var n := |ws| - 1;
    assert IsRun(ws[n]);
    if n > 0 { JoinEnds(ws[..n]); }
  }

  lemma StripEdges(a: string, j: string, b: string)
    requires (a == "" || a == "_") && (b == "" || (b == "_" && j != []))
    requires j != [] ==> j[0] != '_' && j[|j| - 1] != '_'
    ensures StripRight(StripLeft(a + j + b)) == j
  {
    assert a == "_" ==> (a + j + b)[1..] == j + b;
    assert a == "" ==> a + j + b == j + b;
    assert StripLeft(a + j + b) == j + b;
    assert b == "_" ==> (j + b)[..|j + b| - 1] == j;
    assert b == "" ==> j + b == j;
  }

  lemma StripFramed(s: string)
    ensures StripRight(StripLeft(Framed(s))) == Join(Words(s), "_")
  {
    var ws := Words(s);
    JoinNone();
    if ws != [] { JoinEnds(ws); }
    hide Words, Join, StripLeft, StripRight, SlugChar;
    StripEdges(Lead(s), Join(ws, "_"), if ws != [] && !EndsInWord(s) then "_" else "");
  }

  /** A slug is the words of the trimmed, lower-cased text, with an underscore between each two. */
  lemma SlugJoinsWords(host: Host, s: string)
    ensures Slug(host, s) == Join(Words(host.lower(Trim(s))), "_")
  {
    hide Framed, Words, Join, Trim, Collapse, StripLeft, StripRight;
    CollapseIsWords(host.lower(Trim(s)));
    StripFramed(host.lower(Trim(s)));
  }

  // ----- Event ids -----

  /** Event ids agree exactly when slugged CI, alert type and component and the occurrence do. */
  lemma EventIdInjective(host: Host, ci: string, alertType: string, component: Option<string>, occurrence: int,
                         ci': string, alertType': string, component': Option<string>, occurrence': int)
    ensures EventId(host, ci, alertType, component, occurrence) == EventId(host, ci', alertType', component', occurrence') <==>
            && Slug(host, ci) == Slug(host, ci') && Slug(host, alertType) == Slug(host, alertType')
            && ComponentSlug(host, component) == ComponentSlug(host, component') && occurrence == occurrence'
  {
    hide Slug, IntToString;
    if EventId(host, ci, alertType, component, occurrence) == EventId(host, ci', alertType', component', occurrence') {
      SlugShape(host, ci); SlugShape(host, alertType); SlugShape(host, if component.Some? then component.value else "device");
      SlugShape(host, ci'); SlugShape(host, alertType'); SlugShape(host, if component'.Some? then component'.value else "device");
      EventIdParts(Slug(host, ci), Slug(host, alertType), ComponentSlug(host, component), IntToString(occurrence),
                   Slug(host, ci'), Slug(host, alertType'), ComponentSlug(host, component'), IntToString(occurrence'));
      IntToStringInjective(occurrence, occurrence');
    }
  }

  /** Two readings name the same event. */
  predicate SameEvent(host: Host, kind: string, x: Reading, kind': string, y: Reading) {
    && Slug(host, x.ci) == Slug(host, y.ci) && Slug(host, kind) == Slug(host, kind')
    && ComponentSlug(host, x.component) == ComponentSlug(host, y.component) && x.occurrence == y.occurrence
  }

  /** Any two usable traps have the same event id exactly when their readings name the same event. */
  lemma EventKeyExact(host: Host, a: Trap, b: Trap, now: int, now': int)
    requires ReadTrap(host, a, now).Success? && ReadTrap(host, b, now').Success?
    ensures var x, y := ReadTrap(host, a, now).value, ReadTrap(host, b, now').value;
            NormalizeSnmpTrap(host, a, now).value.dto.key == NormalizeSnmpTrap(host, b, now').value.dto.key <==>
            SameEvent(host, AlertType(host, a.trapName, x.oid), x, AlertType(host, b.trapName, y.oid), y)
  {
    hide ReadTrap, EventId, Slug, AlertType, Known, Summary, VarbindMap, ComponentSlug;
    var x, y := ReadTrap(host, a, now).value, ReadTrap(host, b, now').value;
    EventIdInjective(host, x.ci, AlertType(host, a.trapName, x.oid), x.component, x.occurrence,
                     y.ci, AlertType(host, b.trapName, y.oid), y.component, y.occurrence);
  }

  lemma EventIdParts(a: string, t: string, k: string, o: string, a': string, t': string, k': string, o': string)
    requires '-' !in a && '-' !in t && '-' !in k && '-' !in a' && '-' !in t' && '-' !in k'
    requires "snmp-" + a + "-" + t + "-" + k + "-" + o == "snmp-" + a' + "-" + t' + "-" + k' + "-" + o'
    ensures a == a' && t == t' && k == k' && o == o'
  {
    var x, x' := k + "-" + o, k' + "-" + o';
    var y, y' := t + "-" + x, t' + "-" + x';
    var id, id' := "snmp-" + a + "-" + t + "-" + k + "-" + o, "snmp-" + a' + "-" + t' + "-" + k' + "-" + o';
    assert id[5..] == a + "-" + y && id'[5..] == a' + "-" + y';
    CutAtFirst('-', a, y, a', y');
    CutAtFirst('-', t, x, t', x');
    CutAtFirst('-', k, o, k', o');
  }

  // ----- Fault and clear -----

  /**
   * linkDown and linkUp traps that agree on site, CI and extracted interface
   * share their fingerprint whatever their severities and times, while their
   * event ids agree exactly when their occurrences do.
   */
  lemma LinkTrapsPair(host: Host, down: Trap, up: Trap, now: int, now': int)
    requires ReadTrap(host, down, now).Success? && ReadTrap(host, up, now').Success?
    requires var d, u := ReadTrap(host, down, now).value, ReadTrap(host, up, now').value;
             d.oid == LINK_DOWN && u.oid == LINK_UP && d.site == u.site && d.ci == u.ci && d.component == u.component
    ensures var d, u := NormalizeSnmpTrap(host, down, now).value.dto, NormalizeSnmpTrap(host, up, now').value.dto;
            && Fingerprint(host, d) == Fingerprint(host, u)
            && (d.key == u.key <==> ReadTrap(host, down, now).value.occurrence == ReadTrap(host, up, now').value.occurrence)
  {
    LinkReadingsPair(host, down, up, ReadTrap(host, down, now).value, ReadTrap(host, up, now').value);
  }

  lemma LinkKinds(host: Host, trapName: Option<string>)
    ensures AlertType(host, trapName, LINK_DOWN) == AlertType(host, trapName, LINK_UP) == "network.link_state"
    ensures Known(LINK_DOWN).Some? && Known(LINK_DOWN).value.state == Open
    ensures Known(LINK_UP).Some? && Known(LINK_UP).value.state == Recovered
  {
    hide GenericAlertType;
  }

  lemma LinkReadingsPair(host: Host, down: Trap, up: Trap, d: Reading, u: Reading)
    requires d.oid == LINK_DOWN && u.oid == LINK_UP
    ensures var x, y := DtoOf(host, down.trapName, down.severity, down.clears, d), DtoOf(host, up.trapName, up.severity, up.clears, u);
            && x.alertType == y.alertType == "network.link_state"
            && (x.key == y.key ==> d.occurrence == u.occurrence)
            && (d.site == u.site && d.ci == u.ci && d.component == u.component ==>
                  Fingerprint(host, x) == Fingerprint(host, y) && (d.occurrence == u.occurrence ==> x.key == y.key))
            && (!down.clears ==> x.state == Open) && y.state == Recovered
  {
    hide Slug, Summary, GenericAlertType, Canonical, EventId, Join, Known, AlertType;
    LinkKinds(host, down.trapName);
    LinkKinds(host, up.trapName);
    var kind := "network.link_state";
    EventIdInjective(host, d.ci, kind, d.component, d.occurrence, u.ci, kind, u.component, u.occurrence);
  }

  /**
   * When a linkUp closes a linkDown: after any run that left the linkDown's row
   * unrecovered, ingesting the linkUp recovers that row if and only if the two
   * agree on slugged CI, slugged component and occurrence. Otherwise the row
   * stays exactly as it was.
   */
  lemma LinkUpClosesExactly(host: Host, down: Trap, up: Trap, now: int, now': int, reqs: seq<Request>, i: nat, c: Context)
    requires ReadTrap(host, down, now).Success? && ReadTrap(host, up, now').Success?
    requires ReadTrap(host, down, now).value.oid == LINK_DOWN && ReadTrap(host, up, now').value.oid == LINK_UP
    requires i < |AlertRuns.Run(reqs).rows| && AlertRuns.Run(reqs).rows[i].state != Recovered && c.fault != FaultBeforeWrite
    requires AlertRuns.Run(reqs).rows[i].key == NormalizeSnmpTrap(host, down, now).value.dto.key
    ensures var d, u := ReadTrap(host, down, now).value, ReadTrap(host, up, now').value;
            var rows := AlertRuns.Run(reqs + [Request(NormalizeSnmpTrap(host, up, now').value.dto, c)]).rows;
            var agree := Slug(host, d.ci) == Slug(host, u.ci) && ComponentSlug(host, d.component) == ComponentSlug(host, u.component)
                         && d.occurrence == u.occurrence;
            && i < |rows| && (rows[i].state == Recovered <==> agree)
            && (!agree ==> rows[i] == AlertRuns.Run(reqs).rows[i])
  {
    hide AlertRuns.Run, ReadTrap, Slug, ComponentSlug, DtoOf, VarbindMap;
    EventKeyExact(host, down, up, now, now');
    LinkKinds(host, down.trapName);
    LinkKinds(host, up.trapName);
    LinkReadingsPair(host, down, up, ReadTrap(host, down, now).value, ReadTrap(host, up, now').value);
    AlertRuns.NextDelivery(reqs, Request(NormalizeSnmpTrap(host, up, now').value.dto, c), i);
  }

  /**
   * The shared fingerprint does not close anything: ingesting a linkDown and
   * then a linkUp of another occurrence leaves the linkDown's row open, beside a
   * second row that is recovered.
   */
  lemma LinkUpLeavesLinkDownOpen(host: Host, down: Trap, up: Trap, now: int, now': int, c: Context, c': Context)
    requires ReadTrap(host, down, now).Success? && ReadTrap(host, up, now').Success?
    requires ReadTrap(host, down, now).value.oid == LINK_DOWN && ReadTrap(host, up, now').value.oid == LINK_UP && !down.clears
    requires ReadTrap(host, down, now).value.occurrence != ReadTrap(host, up, now').value.occurrence
    requires c.fault != FaultBeforeWrite && c'.fault != FaultBeforeWrite
    ensures var d, u := NormalizeSnmpTrap(host, down, now).value.dto, NormalizeSnmpTrap(host, up, now').value.dto;
            var rows := AlertRuns.Run([Request(d, c), Request(u, c')]).rows;
            |rows| == 2 && rows[0].key == d.key && rows[0].state == Open && rows[1].key == u.key && rows[1].state == Recovered
  {
    var d, u := NormalizeSnmpTrap(host, down, now).value.dto, NormalizeSnmpTrap(host, up, now').value.dto;
    LinkReadingsPair(host, down, up, ReadTrap(host, down, now).value, ReadTrap(host, up, now').value);
    TwoEvents(Request(d, c), Request(u, c'));
  }

  lemma TwoEvents(first: Request, second: Request)
    requires AlertRuns.Wrote(first) && AlertRuns.Wrote(second) && first.dto.key != second.dto.key
    ensures var rows := AlertRuns.Run([first, second]).rows;
            && |rows| == 2 && rows[0].key == first.dto.key && rows[0].state == first.dto.state
            && rows[1].key == second.dto.key && rows[1].state == second.dto.state
  {
    var st := Ingested(EMPTY_STORE, first);
    assert [first, second][..1] == [first] && [first][..0] == [];
    assert AlertRuns.Run([]) == EMPTY_STORE;
    assert AlertRuns.Run([first]) == st;
    AlertRuns.IngestedRows(EMPTY_STORE, first);
    AlertRuns.IngestedRows(st, second);
  }

  // ----- Translation -----

  /** Digits and dots, at least one of them. */
  ghost predicate IsOid(s: string) {
    s != [] && forall i :: 0 <= i < |s| ==> IsDigit(s[i]) || s[i] == '.'
  }

  /** A v1 trap section 3.1 of RFC 3584 can translate: a generic trap, or an enterprise trap with its enterprise. */
  ghost predicate Translatable(pdu: Pdu) {
    && pdu.V1Pdu? && pdu.genericTrap.Some?
    && (|| 0 <= pdu.genericTrap.value <= 5
        || (pdu.genericTrap.value == 6 && pdu.enterprise.Some? && IsOid(pdu.enterprise.value)))
    && forall v :: v in pdu.varbinds ==> !Reserved(v)
  }

  /** The snmpTrapOID of the translation: the generic trap's own, or the enterprise with two arcs more. */
  ghost function TranslatedOid(pdu: Pdu): string
    requires Translatable(pdu)
  {
    if pdu.genericTrap.value <= 5 then GenericOid(pdu.genericTrap.value)
    else pdu.enterprise.value + ".0." + IntToString(if pdu.specificTrap.Some? then pdu.specificTrap.value else 0)
  }

  /** What a proxy appends: the agent's address, its community and the enterprise. */
  ghost predicate ProxyVarbind(v: RawVarbind) {
    v.oid == "1.3.6.1.6.3.18.1.3.0" || v.oid == "1.3.6.1.6.3.18.1.4.0" || v.oid == "1.3.6.1.6.3.1.1.4.3.0"
  }

  /** Section 3.1 of RFC 3584: uptime and trap OID first, then the v1 varbinds, then what a proxy adds. */
  ghost function Translated(pdu: Pdu, extras: seq<RawVarbind>): Pdu
    requires Translatable(pdu)
  {
    V2Pdu("v2c", Header(pdu) + pdu.varbinds + extras)
  }

  lemma {:induction false} FilterAll<T(!new)>(p: T -> bool, s: seq<T>)
    requires forall x :: x in s ==> p(x)
    ensures Filter(p, s) == s
  {
    if s != [] {
      FilterAll(p, s[..|s| - 1]);
      assert s == s[..|s| - 1] + [s[|s| - 1]];
    }
  }

  lemma {:induction false} FilterConcat<T(!new)>(p: T -> bool, a: seq<T>, b: seq<T>)
    ensures Filter(p, a + b) == Filter(p, a) + Filter(p, b)
  {
    if b == [] {
      assert a + b == a;
    } else {
      assert (a + b)[..|a + b| - 1] == a + b[..|b| - 1];
      FilterConcat(p, a, b[..|b| - 1]);
    }
  }

  /** Varbinds that are not reserved change neither the uptime nor the trap OID that was read. */
  lemma {:induction false} HeaderOnly(host: Host, header: seq<RawVarbind>, data: seq<RawVarbind>)
    requires forall v :: v in data ==> !Reserved(v)
    ensures UpTimeOf(host, header + data) == UpTimeOf(host, header) && TrapOidOf(header + data) == TrapOidOf(header)
  {
    if data == [] {
      assert header + data == header;
    } else {
      var n := |data| - 1;
      assert (header + data)[..|header + data| - 1] == header + data[..n];
      assert (header + data)[|header + data| - 1] == data[n] && data[n] in data;
      HeaderOnly(host, header, data[..|data| - 1]);
    }
  }

  lemma OidIsPlain(oid: string)
    requires oid != "" && (IsDigit(oid[0]) || oid[0] == '.') && (IsDigit(oid[|oid| - 1]) || oid[|oid| - 1] == '.')
    ensures Trim(oid) == oid
  {
    TrimFixed(oid);
  }

  lemma EnterpriseOid(enterprise: string, specific: int)
    requires IsOid(enterprise)
    ensures Trim(enterprise) == enterprise != ""
    ensures var oid := enterprise + ".0." + IntToString(specific); Trim(oid) == oid != ""
  {
    var n := IntToString(specific);
    var oid := enterprise + ".0." + n;
    assert oid[0] == enterprise[0] && oid[|oid| - 1] == n[|n| - 1] && IsDigit(n[|n| - 1]);
    hide IsOid, IntToString, Trim;
    OidIsPlain(oid);
    OidIsPlain(enterprise);
  }

  lemma GenericOidIsPlain(g: int)
    requires 0 <= g <= 5
    ensures Trim(GenericOid(g)) == GenericOid(g) != ""
  {
    var oid := GenericOid(g);
    assert |oid| == 19 && oid[0] == '1' && IsDigit(oid[18]);
    hide GenericOid, Trim;
    OidIsPlain(oid);
  }

  lemma TranslatedOidPlain(pdu: Pdu)
    requires Translatable(pdu)
    ensures Trim(TranslatedOid(pdu)) == TranslatedOid(pdu) != ""
    ensures V1Oid(V1Fields(NonEmpty(pdu.enterprise), pdu.genericTrap, pdu.specificTrap)) == Some(TranslatedOid(pdu))
  {
    hide Trim, IntToString, GenericOid, Reserved;
    if pdu.genericTrap.value == 6 {
      EnterpriseOid(pdu.enterprise.value, if pdu.specificTrap.Some? then pdu.specificTrap.value else 0);
    } else {
      GenericOidIsPlain(pdu.genericTrap.value);
    }
  }

  ghost function Header(pdu: Pdu): seq<RawVarbind>
    requires Translatable(pdu)
  {
    (if pdu.upTime.Some? then [RawVarbind(SYS_UPTIME_OID, Some("TimeTicks"), Plain(Num(pdu.upTime.value)))] else [])
    + [RawVarbind(SNMP_TRAP_OID, Some("OID"), Plain(Str(TranslatedOid(pdu))))]
  }

  /** A trap OID varbind at the end is what is read, and leaves the uptime alone. */
  lemma ReadsTrapOid(host: Host, vs: seq<RawVarbind>, oid: string)
    requires oid != ""
    ensures var all := vs + [RawVarbind(SNMP_TRAP_OID, Some("OID"), Plain(Str(oid)))];
            TrapOidOf(all) == Some(oid) && UpTimeOf(host, all) == UpTimeOf(host, vs)
  {
    var all := vs + [RawVarbind(SNMP_TRAP_OID, Some("OID"), Plain(Str(oid)))];
    assert all[..|all| - 1] == vs;
    assert |SYS_UPTIME_OID| != |SNMP_TRAP_OID|;
  }

  lemma HeaderReads(host: Host, pdu: Pdu)
    requires Translatable(pdu)
    ensures UpTimeOf(host, Header(pdu)) == pdu.upTime && TrapOidOf(Header(pdu)) == Some(TranslatedOid(pdu))
    ensures DataOf(Header(pdu)) == []
  {
    hide TranslatedOid, NumberOf;
    TranslatedOidPlain(pdu);
    var up := if pdu.upTime.Some? then [RawVarbind(SYS_UPTIME_OID, Some("TimeTicks"), Plain(Num(pdu.upTime.value)))] else [];
    ReadsTrapOid(host, up, TranslatedOid(pdu));
    ReadsUpTime(host, pdu.upTime);
    FilterNone(Unreserved, Header(pdu));
  }

  lemma ReadsUpTime(host: Host, upTime: Option<int>)
    ensures UpTimeOf(host, if upTime.Some? then [RawVarbind(SYS_UPTIME_OID, Some("TimeTicks"), Plain(Num(upTime.value)))] else []) == upTime
  {
  }

  lemma {:induction false} FilterNone<T(!new)>(p: T -> bool, s: seq<T>)
    requires forall x :: x in s ==> !p(x)
    ensures Filter(p, s) == []
  {
    if s != [] { FilterNone(p, s[..|s| - 1]); }
  }

  lemma DataOfTranslated(pdu: Pdu, extras: seq<RawVarbind>)
    requires Translatable(pdu) && forall v :: v in extras ==> ProxyVarbind(v)
    requires DataOf(Header(pdu)) == []
    ensures DataOf(Header(pdu) + (pdu.varbinds + extras)) == pdu.varbinds + extras
    ensures forall v :: v in pdu.varbinds + extras ==> !Reserved(v)
  {
    hide Header, TranslatedOid;
    var data := pdu.varbinds + extras;
    forall v | v in data ensures !Reserved(v) {
      if v in extras { ProxyIsNotReserved(v); }
    }
    FilterConcat(Unreserved, Header(pdu), data);
    FilterAll(Unreserved, data);
  }

  lemma ProxyIsNotReserved(v: RawVarbind)
    requires ProxyVarbind(v)
    ensures !Reserved(v)
  {
    assert |v.oid| == 20 || v.oid[18] == '3';
  }

  /** The trap the collector makes of the translation. */
  lemma TranslatedTrap(host: Host, pdu: Pdu, extras: seq<RawVarbind>, source: Source, receivedAt: string)
    requires Translatable(pdu) && forall v :: v in extras ==> ProxyVarbind(v)
    ensures var t := TrapOfPdu(host, Translated(pdu, extras), source, receivedAt);
            t.trapOid == Some(TranslatedOid(pdu)) && t.sysUpTimeTicks == pdu.upTime && t.varbinds == ToVarbinds(pdu.varbinds + extras)
  {
    hide Header, TranslatedOid, ToVarbinds, Translatable, DataOf, TrapOidOf, UpTimeOf, ProxyVarbind, Reserved;
    HeaderReads(host, pdu);
    DataOfTranslated(pdu, extras);
    HeaderOnly(host, Header(pdu), pdu.varbinds + extras);
    assert Header(pdu) + pdu.varbinds + extras == Header(pdu) + (pdu.varbinds + extras);
  }

  lemma {:induction false} FirstAppend(p: Varbind -> bool, vs: seq<Varbind>, more: seq<Varbind>)
    requires forall v :: v in more ==> !p(v)
    ensures First(p, vs + more) == First(p, vs)
  {
    if vs != [] {
      assert (vs + more)[1..] == vs[1..] + more;
      FirstAppend(p, vs[1..], more);
    } else if more != [] {
      assert (vs + more)[1..] == more[1..] == [] + more[1..];
      FirstAppend(p, [], more[1..]);
    }
  }

  /** What a proxy appends names no component. */
  lemma ProxyNamesNothing(vs: seq<RawVarbind>, extras: seq<RawVarbind>, onInterface: bool)
    requires forall v :: v in extras ==> ProxyVarbind(v)
    ensures ComponentKey(ToVarbinds(vs + extras), onInterface) == ComponentKey(ToVarbinds(vs), onInterface)
  {
    var a, b := ToVarbinds(vs), ToVarbinds(extras);
    assert ToVarbinds(vs + extras) == a + b;
    forall v | v in b ensures !NamesInterface(v) && !IndexesInterface(v) && !NamesComponent(v) {
      var i :| 0 <= i < |extras| && v == ToVarbind(extras[i]);
      assert extras[i] in extras;
      assert v.oid[8] == '6';
    }
    FirstAppend(NamesInterface, a, b);
    FirstAppend(IndexesInterface, a, b);
    FirstAppend(NamesComponent, a, b);
  }

  /** Traps that agree on these fields read the same. */
  lemma SameReading(host: Host, a: Trap, b: Trap, now: int)
    requires a.ciCode == b.ciCode && a.siteCode == b.siteCode && a.agentAddress == b.agentAddress && a.receivedAt == b.receivedAt
    requires a.sysUpTimeTicks == b.sysUpTimeTicks && ResolveTrapOid(a) == ResolveTrapOid(b)
    requires ResolveTrapOid(a).Some? ==> var k := OnInterface(ResolveTrapOid(a).value);
               ComponentKey(a.varbinds, k) == ComponentKey(b.varbinds, k)
    ensures ReadTrap(host, a, now) == ReadTrap(host, b, now)
  {
    hide Trim, SiteFromCi, ResolveTrapOid, OnInterface, ComponentKey, OccurredAt, TrimmedOrNone;
  }

  /**
   * Translation preserves meaning: from the same source and time of receipt, a
   * v1 trap and its v2c translation, proxied or not, normalize to the same alert
   * or fail on the same field. Of the attributes only the version, the v1
   * fields and the appended varbinds tell them apart.
   */
  lemma TranslationPreservesMeaning(host: Host, pdu: Pdu, extras: seq<RawVarbind>, source: Source, receivedAt: string, now: int)
    requires Translatable(pdu) && forall v :: v in extras ==> ProxyVarbind(v)
    ensures var one := NormalizeSnmpTrap(host, TrapOfPdu(host, pdu, source, receivedAt), now);
            var two := NormalizeSnmpTrap(host, TrapOfPdu(host, Translated(pdu, extras), source, receivedAt), now);
            if one.Failure? then two == one
            else
              && two.Success? && two.value.dto == one.value.dto
              && two.value.attributes == one.value.attributes.(
                   snmpVersion := Some("v2c"), v1 := None, varbinds := VarbindMap(ToVarbinds(pdu.varbinds + extras)))
  {
    hide Translatable, Translated, TranslatedOid, ToVarbinds, ReadTrap, DtoOf, VarbindMap, UpTimeOf, TrapOidOf, DataOf;
    TranslatedTrap(host, pdu, extras, source, receivedAt);
    TranslatedReads(host, pdu, extras, source, receivedAt, now);
    TranslatedFields(host, pdu, extras, source, receivedAt);
  }

  lemma TranslatedFields(host: Host, pdu: Pdu, extras: seq<RawVarbind>, source: Source, receivedAt: string)
    requires Translatable(pdu)
    ensures var one, two := TrapOfPdu(host, pdu, source, receivedAt), TrapOfPdu(host, Translated(pdu, extras), source, receivedAt);
            && two.trapName == one.trapName && two.severity == one.severity && two.clears == one.clears
            && two.version == Some("v2c") && two.v1 == None
            && two.ciCode == one.ciCode && two.siteCode == one.siteCode && two.agentAddress == one.agentAddress
            && two.receivedAt == one.receivedAt && one.sysUpTimeTicks == pdu.upTime && one.varbinds == ToVarbinds(pdu.varbinds)
            && one.trapOid == None && one.v1 == Some(V1Fields(NonEmpty(pdu.enterprise), pdu.genericTrap, pdu.specificTrap))
  {
    hide UpTimeOf, TrapOidOf, DataOf, ToVarbinds, Header;
  }

  lemma TranslatedReads(host: Host, pdu: Pdu, extras: seq<RawVarbind>, source: Source, receivedAt: string, now: int)
    requires Translatable(pdu) && forall v :: v in extras ==> ProxyVarbind(v)
    ensures ReadTrap(host, TrapOfPdu(host, pdu, source, receivedAt), now) ==
            ReadTrap(host, TrapOfPdu(host, Translated(pdu, extras), source, receivedAt), now)
  {
    hide Translatable, Translated, TranslatedOid, ToVarbinds, ReadTrap, ComponentKey, TrapOfPdu, V1Oid, OnInterface, Trim;
    TranslatedTrap(host, pdu, extras, source, receivedAt);
    TranslatedFields(host, pdu, extras, source, receivedAt);
    TranslatedOidPlain(pdu);
    ProxyNamesNothing(pdu.varbinds, extras, OnInterface(TranslatedOid(pdu)));
    var one, two := TrapOfPdu(host, pdu, source, receivedAt), TrapOfPdu(host, Translated(pdu, extras), source, receivedAt);
    assert ResolveTrapOid(one) == Some(TranslatedOid(pdu)) == ResolveTrapOid(two);
    SameReading(host, one, two, now);
  }
}
