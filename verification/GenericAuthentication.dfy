/**
 The predefined ("generic") authentication of `CredentialsHelper.authenticate`: a nested loop that
 writes resolved entries into the sections of a request's options.
 */
module GenericAuthentication {
  import opened Wrappers

  /** What a section of the request options may hold: something falsy, an object with fields, or a
      truthy primitive, on which setting a field throws. */
  datatype Value = Falsy | Object(fields: map<string, string>) | Primitive

  type Options = map<string, Value>

  /** `authenticate.properties`, in enumeration order: per section, the unresolved entries. */
  type Properties = seq<(string, seq<(string, string)>)>

  datatype Write = Write(section: string, key: string, value: string)

  // ---------------------------------------------------------------------------
  // Reference: what each section becomes
  // ---------------------------------------------------------------------------

  /** All writes, resolved and in order. */
  function WritesOf(properties: Properties, resolve: string -> string): seq<Write> {
    if properties == [] then []
    else
      var n := |properties| - 1;
      WritesOf(properties[..n], resolve) + Resolved(properties[n].0, properties[n].1, resolve)
  }

  function Resolved(section: string, entries: seq<(string, string)>, resolve: string -> string): seq<Write> {
    seq(|entries|, i requires 0 <= i < |entries| => Write(section, resolve(entries[i].0), resolve(entries[i].1)))
  }

  /** The fields written to a section, the last write to a key winning. */
  ghost function Winners(writes: seq<Write>, section: string): map<string, string> {
    if writes == [] then map[]
    else
      var w := writes[|writes| - 1];
      var before := Winners(writes[..|writes| - 1], section);
      if w.section == section then before[w.key := w.value] else before
  }

  ghost predicate Touched(writes: seq<Write>, section: string) {
    exists w | w in writes :: w.section == section
  }

  /** A missing `headers` section becomes an empty object first. */
  function WithHeaders(o: Options): Options {
    if "headers" in o then o else o["headers" := Object(map[])]
  }

  function Lookup(o: Options, section: string): Option<Value> {
    if section in o then Some(o[section]) else None
  }

  /** The fields of a section; a missing or falsy one is replaced by an empty object on writing. */
  function Fields(m: Option<Value>): map<string, string> {
    if m.Some? && m.value.Object? then m.value.fields else map[]
  }

  /** What a section holds after the writes: a touched one is the old one overridden by the winning
      entries, and an untouched one is as it was. */
  ghost function After(o: Options, writes: seq<Write>, section: string): Option<Value> {
    if Touched(writes, section)
    then Some(Object(Fields(Lookup(o, section)) + Winners(writes, section)))
    else Lookup(o, section)
  }

  ghost predicate Blocked(o: Options, writes: seq<Write>) {
    exists w | w in writes :: Lookup(o, w.section) == Some(Primitive)
  }

  ghost predicate Authenticated(o: Options, writes: seq<Write>, result: Options) {
    forall section :: Lookup(result, section) == After(o, writes, section)
  }

  // ---------------------------------------------------------------------------
  // The code
  // ---------------------------------------------------------------------------

  class Request {
    var options: Options

    /**
     The branch for an `authenticate` object: `generic` says whether its type is 'generic'.
     Returns false when setting a field threw.
     */
    method Authenticate(generic: bool, properties: Properties, resolve: string -> string) returns (ok: bool)
      modifies this
      ensures !generic ==> ok && options == WithHeaders(old(options))
      ensures generic ==> (ok <==> !Blocked(WithHeaders(old(options)), WritesOf(properties, resolve)))
      ensures generic && ok ==> Authenticated(WithHeaders(old(options)), WritesOf(properties, resolve), options)
    {
      if "headers" !in options {
        options := options["headers" := Object(map[])];
      }
      ghost var start := options;
      if !generic {
        return true;
      }
      var i := 0;
      while i < |properties|
        invariant 0 <= i <= |properties|
        invariant !Blocked(start, WritesOf(properties[..i], resolve))
        invariant Authenticated(start, WritesOf(properties[..i], resolve), options)
      {
        WritesOfOne(properties, resolve, i);
        ok := WriteSection(start, WritesOf(properties[..i], resolve), properties[i].0, properties[i].1, resolve);
        if !ok {
          BlockedLater(start, properties, resolve, i + 1);
          return;
        }
        i := i + 1;
      }
      assert properties[..i] == properties;
      return true;
    }

    /** The inner loop, over the entries of one section. */
    method WriteSection(ghost start: Options, ghost before: seq<Write>, outerKey: string,
                        outerValue: seq<(string, string)>, resolve: string -> string)
      returns (ok: bool)
      requires !Blocked(start, before) && Authenticated(start, before, options)
      modifies this
      ensures ok <==> !Blocked(start, before + Resolved(outerKey, outerValue, resolve))
      ensures ok ==> Authenticated(start, before + Resolved(outerKey, outerValue, resolve), options)
    {
      ghost var own := Resolved(outerKey, outerValue, resolve);
      assert before + own[..0] == before;
      var j := 0;
      while j < |outerValue|
        invariant 0 <= j <= |outerValue|
        invariant !Blocked(start, before + own[..j])
        invariant Authenticated(start, before + own[..j], options)
      {
        var keyResolved := resolve(outerValue[j].0);
        var valueResolved := resolve(outerValue[j].1);
        ghost var w := Write(outerKey, keyResolved, valueResolved);
        assert own[j] == w && before + own[..j + 1] == before + own[..j] + [w];
        BlockedByOneMore(start, before + own[..j], w);
        ok := SetField(outerKey, keyResolved, valueResolved);
        if !ok {
          assert Lookup(start, outerKey) == Some(Primitive) && w in before + own;
          return;
        }
        forall s ensures Lookup(options, s) == After(start, before + own[..j + 1], s) {
          AfterOneMore(start, before + own[..j], w, s);
        }
        j := j + 1;
      }
      assert own[..j] == own;
      return true;
    }

    /** The innermost statements: make the section an object if it is falsy, then set the field. */
    method SetField(outerKey: string, key: string, value: string) returns (ok: bool)
      modifies this
      ensures ok <==> Lookup(old(options), outerKey) != Some(Primitive)
      ensures ok ==> Lookup(options, outerKey)
                     == Some(Object(Fields(Lookup(old(options), outerKey))[key := value]))
      ensures ok ==> forall s | s != outerKey :: Lookup(options, s) == Lookup(old(options), s)
      ensures !ok ==> options == old(options)
    {
      if outerKey !in options || options[outerKey].Falsy? {
        options := options[outerKey := Object(map[])];
      }
      if options[outerKey].Primitive? {
        return false;
      }
      options := options[outerKey := Object(options[outerKey].fields[key := value])];
      return true;
    }
  }

  lemma WritesOfOne(properties: Properties, resolve: string -> string, i: nat)
    requires i < |properties|
    ensures WritesOf(properties[..i + 1], resolve)
            == WritesOf(properties[..i], resolve) + Resolved(properties[i].0, properties[i].1, resolve)
  {
    assert properties[..i + 1][..i] == properties[..i];
  }

  /** The reference grows write by write. */
  lemma AfterOneMore(o: Options, writes: seq<Write>, w: Write, s: string)
    ensures After(o, writes + [w], s) ==
            if s == w.section then Some(Object(Fields(After(o, writes, s))[w.key := w.value]))
            else After(o, writes, s)
  {
    var more := writes + [w];
    assert more[..|more| - 1] == writes;
    assert Touched(more, s) <==> Touched(writes, s) || s == w.section by {
      assert forall x :: x in more <==> x in writes || x == w;
    }
    if s == w.section {
      if !Touched(writes, s) {
        UntouchedHasNoWinners(writes, s);
      }
      var base, won := Fields(Lookup(o, s)), Winners(writes, s);
      assert Fields(After(o, writes, s)) == base + won;
      assert Winners(more, s) == won[w.key := w.value];
      assert (base + won)[w.key := w.value] == base + won[w.key := w.value];
    }
  }

  lemma BlockedByOneMore(o: Options, writes: seq<Write>, w: Write)
    requires !Blocked(o, writes)
    ensures Blocked(o, writes + [w]) <==> Lookup(o, w.section) == Some(Primitive)
    ensures Lookup(o, w.section) == Some(Primitive) <==> After(o, writes, w.section) == Some(Primitive)
  {
  }

  lemma {:induction false} UntouchedHasNoWinners(writes: seq<Write>, section: string)
    requires !Touched(writes, section)
    ensures Winners(writes, section) == map[]
    decreases |writes|
  {
    if writes != [] {
      assert writes[|writes| - 1] in writes;
      UntouchedHasNoWinners(writes[..|writes| - 1], section);
    }
  }

  lemma {:induction false} BlockedLater(o: Options, properties: Properties, resolve: string -> string, i: nat)
    requires i <= |properties| && Blocked(o, WritesOf(properties[..i], resolve))
    ensures Blocked(o, WritesOf(properties, resolve))
    decreases |properties| - i
  {
    if i == |properties| {
      assert properties[..i] == properties;
    } else {
      assert properties[..i + 1][..i] == properties[..i];
      BlockedLater(o, properties, resolve, i + 1);
    }
  }

  // ---------------------------------------------------------------------------
  // Consequences
  // ---------------------------------------------------------------------------

  /** Authenticating twice is authenticating once, including whether it fails. */
  lemma AuthenticatedTwice(o: Options, writes: seq<Write>, once: Options, twice: Options)
    requires !Blocked(WithHeaders(o), writes)
    requires Authenticated(WithHeaders(o), writes, once)
    requires Authenticated(WithHeaders(once), writes, twice)
    ensures !Blocked(WithHeaders(once), writes)
    ensures twice == once
  {
    assert Lookup(once, "headers") == After(WithHeaders(o), writes, "headers");
    assert WithHeaders(once) == once;
    forall w | w in writes ensures Lookup(once, w.section) != Some(Primitive) {
      assert Touched(writes, w.section);
    }
    forall s ensures Lookup(twice, s) == Lookup(once, s) {
      assert Lookup(twice, s) == After(once, writes, s);
      if Touched(writes, s) {
        var fields := Fields(Lookup(once, s));
        assert fields == Fields(Lookup(WithHeaders(o), s)) + Winners(writes, s);
        assert fields + Winners(writes, s) == fields;
      }
    }
    SameEverywhere(twice, once);
  }

  lemma SameEverywhere(a: Options, b: Options)
    requires forall s :: Lookup(a, s) == Lookup(b, s)
    ensures a == b
  {
    forall s ensures s in a <==> s in b { assert Lookup(a, s) == Lookup(b, s); }
    forall s | s in a ensures a[s] == b[s] { assert Lookup(a, s) == Lookup(b, s); }
  }

  /** Nothing outside the touched sections changes, except that missing headers become empty. */
  lemma OnlyTouchedSectionsChange(o: Options, writes: seq<Write>, result: Options, s: string)
    requires Authenticated(WithHeaders(o), writes, result)
    requires !Touched(writes, s)
    ensures Lookup(result, s) == if s == "headers" && s !in o then Some(Object(map[])) else Lookup(o, s)
  {
  }

  /** A field carries the last write to it; `LastWriteWins` and this together fix every field. */
  lemma {:induction false} UnwrittenFieldStays(writes: seq<Write>, section: string, key: string)
    requires forall w | w in writes :: !(w.section == section && w.key == key)
    ensures key !in Winners(writes, section)
    decreases |writes|
  {
    if writes != [] {
      assert writes[|writes| - 1] in writes;
      UnwrittenFieldStays(writes[..|writes| - 1], section, key);
    }
  }

  lemma {:induction false} LastWriteWins(writes: seq<Write>, i: nat)
    requires i < |writes|
    requires forall j | i < j < |writes| :: writes[j].section == writes[i].section ==> writes[j].key != writes[i].key
    ensures writes[i].key in Winners(writes, writes[i].section)
    ensures Winners(writes, writes[i].section)[writes[i].key] == writes[i].value
    decreases |writes|
  {
    if i < |writes| - 1 {
      LastWriteWins(writes[..|writes| - 1], i);
    }
  }

  // ---------------------------------------------------------------------------
  // The result told by the properties
  // ---------------------------------------------------------------------------

  lemma {:induction false} WinnersAppend(a: seq<Write>, b: seq<Write>, section: string)
    ensures Winners(a + b, section) == Winners(a, section) + Winners(b, section)
    decreases |b|
  {
    if b == [] {
      assert a + b == a;
    } else {
      var k := |b| - 1;
      assert (a + b)[..|a + b| - 1] == a + b[..k];
      WinnersAppend(a, b[..k], section);
    }
  }

  /** Every write comes from an entry of the section, with its name and its value resolved. */
  lemma {:induction false} WritesAreEntries(properties: Properties, resolve: string -> string, w: Write)
    ensures w in WritesOf(properties, resolve) <==>
            exists p, i :: 0 <= p < |properties| && 0 <= i < |properties[p].1|
              && w == Write(properties[p].0, resolve(properties[p].1[i].0), resolve(properties[p].1[i].1))
    decreases |properties|
  {
    if properties != [] {
      var n := |properties| - 1;
      WritesAreEntries(properties[..n], resolve, w);
      var own := Resolved(properties[n].0, properties[n].1, resolve);
      if w in own {
        var i :| 0 <= i < |own| && own[i] == w;
      }
      if i :| 0 <= i < |properties[n].1|
              && w == Write(properties[n].0, resolve(properties[n].1[i].0), resolve(properties[n].1[i].1)) {
        assert own[i] == w;
      }
    }
  }

  /** No entry after entry `i` of group `p` resolves, for the same section, to the same name. */
  ghost predicate LastOfItsName(properties: Properties, resolve: string -> string, p: nat, i: nat)
    requires p < |properties| && i < |properties[p].1|
  {
    var name := resolve(properties[p].1[i].0);
    && (forall j | i < j < |properties[p].1| :: resolve(properties[p].1[j].0) != name)
    && (forall q, j | p < q < |properties| && properties[q].0 == properties[p].0 && 0 <= j < |properties[q].1| ::
          resolve(properties[q].1[j].0) != name)
  }

  lemma {:induction false} EntryWins(properties: Properties, resolve: string -> string, p: nat, i: nat)
    requires p < |properties| && i < |properties[p].1| && LastOfItsName(properties, resolve, p, i)
    ensures var won, name := Winners(WritesOf(properties, resolve), properties[p].0), resolve(properties[p].1[i].0);
            name in won && won[name] == resolve(properties[p].1[i].1)
    decreases |properties|
  {
    var n := |properties| - 1;
    var section, name := properties[p].0, resolve(properties[p].1[i].0);
    var own := Resolved(properties[n].0, properties[n].1, resolve);
    WinnersAppend(WritesOf(properties[..n], resolve), own, section);
    if p == n {
      LastWriteWins(own, i);
    } else {
      assert properties[..n][p] == properties[p];
      EntryWins(properties[..n], resolve, p, i);
      forall w | w in own ensures !(w.section == section && w.key == name) {
        var j :| 0 <= j < |own| && own[j] == w;
      }
      UnwrittenFieldStays(own, section, name);
    }
  }

  /** Authentication fails exactly when some section that has entries holds a truthy primitive. */
  lemma BlockedExactly(o: Options, properties: Properties, resolve: string -> string)
    ensures Blocked(WithHeaders(o), WritesOf(properties, resolve)) <==>
            exists p :: 0 <= p < |properties| && properties[p].1 != [] && properties[p].0 in o
                        && o[properties[p].0] == Primitive
  {
    if w :| w in WritesOf(properties, resolve) && Lookup(WithHeaders(o), w.section) == Some(Primitive) {
      WritesAreEntries(properties, resolve, w);
    }
    if p :| 0 <= p < |properties| && properties[p].1 != [] && properties[p].0 in o && o[properties[p].0] == Primitive {
      var w := Write(properties[p].0, resolve(properties[p].1[0].0), resolve(properties[p].1[0].1));
      WritesAreEntries(properties, resolve, w);
      assert w in WritesOf(properties, resolve) && Lookup(WithHeaders(o), w.section) == Some(Primitive);
    }
  }

  /**
   After a successful authentication every entry has set the field that its name resolves to, to what its value
   resolves to, unless a later entry of the section names the same field; and a field that no entry of the
   section names is what it was.
   */
  lemma EntriesSet(o: Options, properties: Properties, resolve: string -> string, result: Options, p: nat)
    requires Authenticated(WithHeaders(o), WritesOf(properties, resolve), result)
    requires p < |properties| && properties[p].1 != []
    ensures properties[p].0 in result && result[properties[p].0].Object?
    ensures forall i | 0 <= i < |properties[p].1| && LastOfItsName(properties, resolve, p, i) ::
              var name, fields := resolve(properties[p].1[i].0), result[properties[p].0].fields;
              name in fields && fields[name] == resolve(properties[p].1[i].1)
    ensures forall name | (forall q, j | 0 <= q < |properties| && properties[q].0 == properties[p].0
                                         && 0 <= j < |properties[q].1| :: resolve(properties[q].1[j].0) != name) ::
              var before, fields := Fields(Lookup(o, properties[p].0)), result[properties[p].0].fields;
              (name in fields <==> name in before) && (name in fields ==> fields[name] == before[name])
  {
    var section, writes := properties[p].0, WritesOf(properties, resolve);
    var first := Write(section, resolve(properties[p].1[0].0), resolve(properties[p].1[0].1));
    WritesAreEntries(properties, resolve, first);
    assert Touched(writes, section);
    assert Lookup(result, section) == After(WithHeaders(o), writes, section);
    forall i | 0 <= i < |properties[p].1| && LastOfItsName(properties, resolve, p, i)
      ensures var name, fields := resolve(properties[p].1[i].0), result[section].fields;
              name in fields && fields[name] == resolve(properties[p].1[i].1)
    {
      EntryWins(properties, resolve, p, i);
    }
    forall name | (forall q, j | 0 <= q < |properties| && properties[q].0 == section
                                 && 0 <= j < |properties[q].1| :: resolve(properties[q].1[j].0) != name)
      ensures name !in Winners(writes, section)
    {
      UnnamedFieldStays(properties, resolve, section, name);
    }
  }

  lemma UnnamedFieldStays(properties: Properties, resolve: string -> string, section: string, name: string)
    requires forall q, j | 0 <= q < |properties| && properties[q].0 == section && 0 <= j < |properties[q].1| ::
               resolve(properties[q].1[j].0) != name
    ensures name !in Winners(WritesOf(properties, resolve), section)
  {
    var writes := WritesOf(properties, resolve);
    forall w | w in writes ensures !(w.section == section && w.key == name) {
      WritesAreEntries(properties, resolve, w);
    }
    UnwrittenFieldStays(writes, section, name);
  }
}
