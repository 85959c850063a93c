/**
 The request parameters of the client: Alamofire's `Parameters`, a Swift
 `[String: Any]` dictionary, and the `urlEncoded` extension that turns one
 into a query string.

 A dictionary is modelled as an association list whose keys are distinct.
 Swift does not specify the iteration order of a dictionary, so the encoder
 is stated for the order of the list it is given, and the lemma
 SameDictionarySamePieces says what holds for every order.
 */
module Parameters {

  import opened Options
  import opened Text
  import opened Seqs

  /**
   A value of one of the client's enumerations (`Limit`, `Side`, `Status`,
   `Total`, `Interval`, `TxType`), whose declarations are not part of this
   model: `rawValue` is the text its raw value interpolates to, `caseName` the
   text the value itself interpolates to.
   */
  datatype Choice = Choice(rawValue: string, caseName: string)

  /**
   A parameter value as stored in the `Any` slot of the dictionary:
   a `String`, an `Int`, a `TimeInterval`/`Double` (kept as the text Swift
   renders it to, since floating-point formatting is not modelled), or an
   enumeration value stored as itself rather than as its raw value.
   */
  datatype Value = Str(s: string) | Int(i: int) | Float(rendered: string) | Enum(choice: Choice)

  /** What `x.rawValue` stores for an enumeration argument `x`. */
  function Raw(c: Choice): (v: Value)
    ensures Render(v) == c.rawValue
  {
    Str(c.rawValue)
  }

  /** The text `"\(value)"` interpolates a stored value to. */
  function Render(v: Value): (r: string)
    ensures v.Str? ==> r == v.s
    ensures v.Int? ==> ParseInt(r) == Some(v.i) && '&' !in r && '=' !in r
    ensures v.Float? ==> r == v.rendered
    ensures v.Enum? ==> r == v.choice.caseName
  {
    match v
    case Str(s) => s
    case Int(i) => IntToStringRoundTrip(i); IntToStringNoSeparators(i); IntToString(i)
    case Float(t) => t
    case Enum(c) => c.caseName
  }

  type Entry = (string, Value)

  type Params = seq<Entry>

  /** The invariant of a dictionary: no key occurs twice. */
  predicate DistinctKeys(ps: Params) {
    forall i, j :: 0 <= i < |ps| && 0 <= j < |ps| && ps[i].0 == ps[j].0 ==> i == j
  }

  function Keys(ps: Params): set<string> {
    set i | 0 <= i < |ps| :: ps[i].0
  }

  /** `ps[k]`: the value stored under `k`, or None when `k` is absent. */
  function Lookup(ps: Params, k: string): Option<Value>
    decreases |ps|
  {
    if |ps| == 0 then None
    else if ps[0].0 == k then Some(ps[0].1)
    else Lookup(ps[1..], k)
  }

  /** A lookup finds nothing exactly when the key is absent, and what it finds is an entry. */
  lemma {:induction false} LookupFinds(ps: Params, k: string)
    ensures Lookup(ps, k).None? <==> k !in Keys(ps)
    ensures Lookup(ps, k).Some? ==> (k, Lookup(ps, k).value) in ps
    decreases |ps|
  {
    if |ps| > 0 {
      KeysCons(ps[0], ps[1..]);
      assert ps == [ps[0]] + ps[1..];
      if ps[0].0 != k {
        LookupFinds(ps[1..], k);
      }
    }
  }

  lemma KeysCons(e: Entry, ps: Params)
    ensures Keys([e] + ps) == {e.0} + Keys(ps)
  {
    var r := [e] + ps;
    forall x | x in Keys(r) ensures x in {e.0} + Keys(ps) {
      var i :| 0 <= i < |r| && r[i].0 == x;
      if i > 0 {
        assert r[i] == ps[i - 1];
      }
    }
    forall x | x in {e.0} + Keys(ps) ensures x in Keys(r) {
      if x == e.0 {
        assert r[0].0 == x;
      } else {
        var i :| 0 <= i < |ps| && ps[i].0 == x;
        assert r[i + 1].0 == x;
      }
    }
  }

  lemma LookupCons(e: Entry, ps: Params, k: string)
    ensures Lookup([e] + ps, k) == if e.0 == k then Some(e.1) else Lookup(ps, k)
  {
    assert ([e] + ps)[1..] == ps;
  }

  /** The tail of a dictionary is one, and does not hold the head's key. */
  lemma DistinctTail(ps: Params)
    requires |ps| >= 1 && DistinctKeys(ps)
    ensures DistinctKeys(ps[1..]) && ps[0].0 !in Keys(ps[1..])
  {
    var tail := ps[1..];
    forall a, b | 0 <= a < |tail| && 0 <= b < |tail| && tail[a].0 == tail[b].0
      ensures a == b
    {
      assert ps[a + 1].0 == ps[b + 1].0;
    }
    forall a | 0 <= a < |tail| ensures tail[a].0 != ps[0].0 {
      assert ps[a + 1] == tail[a];
    }
  }

  /** A new key in front of a dictionary keeps the keys distinct. */
  lemma DistinctCons(e: Entry, ps: Params)
    requires DistinctKeys(ps) && e.0 !in Keys(ps)
    ensures DistinctKeys([e] + ps)
  {
    var r := [e] + ps;
    forall a, b | 0 <= a < |r| && 0 <= b < |r| && r[a].0 == r[b].0 ensures a == b {
      if a > 0 && b > 0 {
        assert ps[a - 1].0 == ps[b - 1].0;
      }
    }
  }

  /** In a dictionary, every stored entry is what a lookup of its key finds. */
  lemma {:induction false} LookupEntry(ps: Params, i: int)
    requires DistinctKeys(ps)
    requires 0 <= i < |ps|
    ensures Lookup(ps, ps[i].0) == Some(ps[i].1)
    decreases |ps|
  {
    if i > 0 {
      DistinctTail(ps);
      assert ps[1..][i - 1] == ps[i];
      assert ps[0].0 != ps[i].0;
      LookupEntry(ps[1..], i - 1);
    }
  }

  /** What storing `v` under `k` in `ps` must produce. */
  ghost predicate StoredIn(ps: Params, k: string, v: Value, r: Params) {
    && Lookup(r, k) == Some(v)
    && (forall k' :: k' != k ==> Lookup(r, k') == Lookup(ps, k'))
    && Keys(r) == Keys(ps) + {k}
    && (k !in Keys(ps) ==> r == ps + [(k, v)])
    && (DistinctKeys(ps) ==> DistinctKeys(r))
  }

  lemma StoredInEmpty(k: string, v: Value)
    ensures StoredIn([], k, v, [(k, v)])
  {
    KeysCons((k, v), []);
    assert [(k, v)] == [(k, v)] + [];
  }

  lemma StoredAtHead(ps: Params, k: string, v: Value)
    requires |ps| >= 1 && ps[0].0 == k
    ensures StoredIn(ps, k, v, [(k, v)] + ps[1..])
  {
    var head, tail := ps[0], ps[1..];
    var r := [(k, v)] + tail;
    assert ps == [head] + tail;
    KeysCons(head, tail);
    KeysCons((k, v), tail);
    forall k' ensures Lookup(r, k') == if k' == k then Some(v) else Lookup(ps, k') {
      LookupCons((k, v), tail, k');
      LookupCons(head, tail, k');
    }
    if DistinctKeys(ps) {
      DistinctTail(ps);
      DistinctCons((k, v), tail);
    }
  }

  lemma StoredPastHead(ps: Params, k: string, v: Value, rest: Params)
    requires |ps| >= 1 && ps[0].0 != k
    requires StoredIn(ps[1..], k, v, rest)
    ensures StoredIn(ps, k, v, [ps[0]] + rest)
  {
    var head, tail := ps[0], ps[1..];
    var r := [head] + rest;
    assert ps == [head] + tail;
    KeysCons(head, tail);
    KeysCons(head, rest);
    forall k' ensures Lookup(r, k') == if k' == k then Some(v) else Lookup(ps, k') {
      LookupCons(head, rest, k');
      LookupCons(head, tail, k');
    }
    if k !in Keys(ps) {
      assert [head] + (tail + [(k, v)]) == ps + [(k, v)];
    }
    if DistinctKeys(ps) {
      DistinctTail(ps);
      DistinctCons(head, rest);
    }
  }

  /**
   `ps[k] = v`: stores `v` under `k`, replacing the old value in place when
   `k` is present and adding a new entry at the end otherwise.
   */
  function Put(ps: Params, k: string, v: Value): (r: Params)
    ensures Lookup(r, k) == Some(v)
    ensures forall k' :: k' != k ==> Lookup(r, k') == Lookup(ps, k')
    ensures Keys(r) == Keys(ps) + {k}
    ensures k !in Keys(ps) ==> r == ps + [(k, v)]
    ensures DistinctKeys(ps) ==> DistinctKeys(r)
    decreases |ps|
  {
    if |ps| == 0 then
      StoredInEmpty(k, v);
      [(k, v)]
    else if ps[0].0 == k then
      StoredAtHead(ps, k, v);
      [(k, v)] + ps[1..]
    else
      var rest := Put(ps[1..], k, v);
      StoredPastHead(ps, k, v, rest);
      [ps[0]] + rest
  }

  /** `ps[k] = nil`: removes `k` and leaves every other entry, in order. */
  function Remove(ps: Params, k: string): (r: Params)
    ensures Lookup(r, k) == None
    ensures forall k' :: k' != k ==> Lookup(r, k') == Lookup(ps, k')
    ensures Keys(r) == Keys(ps) - {k}
    ensures k !in Keys(ps) ==> r == ps
    ensures DistinctKeys(ps) ==> DistinctKeys(r)
    decreases |ps|
  {
    if |ps| == 0 then ps
    else
      var head, tail := ps[0], ps[1..];
      assert ps == [head] + tail;
      KeysCons(head, tail);
      var rest := Remove(tail, k);
      if head.0 == k then
        forall k' | k' != k ensures Lookup(rest, k') == Lookup(ps, k') {
          LookupCons(head, tail, k');
        }
        assert DistinctKeys(ps) ==> DistinctKeys(rest) by {
          if DistinctKeys(ps) {
            DistinctTail(ps);
          }
        }
        rest
      else
        var r := [head] + rest;
        KeysCons(head, rest);
        forall k' ensures Lookup(r, k') == if k' == k then None else Lookup(ps, k') {
          LookupCons(head, rest, k');
          LookupCons(head, tail, k');
        }
        assert DistinctKeys(ps) ==> DistinctKeys(r) by {
          if DistinctKeys(ps) {
            DistinctTail(ps);
            DistinctCons(head, rest);
          }
        }
        r
  }

  /** `ps[k] = o` for an optional `o`: stores the value, or removes `k` when `o` is nil. */
  function Assign(ps: Params, k: string, o: Option<Value>): (r: Params)
    ensures Lookup(r, k) == o
    ensures forall k' :: k' != k ==> Lookup(r, k') == Lookup(ps, k')
    ensures Keys(r) == if o.Some? then Keys(ps) + {k} else Keys(ps) - {k}
    ensures DistinctKeys(ps) ==> DistinctKeys(r)
  {
    match o
    case Some(v) => Put(ps, k, v)
    case None => Remove(ps, k)
  }

  /** `if let x = o { ps[k] = x }`: stores the value only when one is supplied. */
  function PutIfPresent(ps: Params, k: string, o: Option<Value>): (r: Params)
    ensures Lookup(r, k) == if o.Some? then o else Lookup(ps, k)
    ensures forall k' :: k' != k ==> Lookup(r, k') == Lookup(ps, k')
    ensures Keys(r) == if o.Some? then Keys(ps) + {k} else Keys(ps)
    ensures DistinctKeys(ps) ==> DistinctKeys(r)
  {
    if o.Some? then Put(ps, k, o.value) else ps
  }

  // ----- dictionaries built by a run of conditional assignments -----

  /** One `if let x = arg { ps[key] = x }` step: the key and the value, None when not supplied. */
  type Field = (string, Option<Value>)

  function FieldKeys(fields: seq<Field>): set<string> {
    set i | 0 <= i < |fields| :: fields[i].0
  }

  predicate DistinctFields(fields: seq<Field>) {
    forall i, j :: 0 <= i < |fields| && 0 <= j < |fields| && fields[i].0 == fields[j].0 ==> i == j
  }

  /**
   `ps` is a dictionary holding, for each field, its value when supplied and
   nothing otherwise, and no key that is not a field's.
   */
  ghost predicate HoldsExactly(ps: Params, fields: seq<Field>) {
    && DistinctKeys(ps)
    && (forall i :: 0 <= i < |fields| ==> Lookup(ps, fields[i].0) == fields[i].1)
    && (forall k :: k !in FieldKeys(fields) ==> Lookup(ps, k) == None)
  }

  /** The steps run in order on `ps`: a dictionary stays one, and a key no step names is untouched. */
  function Collect(ps: Params, fields: seq<Field>): (r: Params)
    ensures DistinctKeys(ps) ==> DistinctKeys(r)
    ensures forall k :: k !in FieldKeys(fields) ==> Lookup(r, k) == Lookup(ps, k)
    decreases |fields|
  {
    if |fields| == 0 then ps
    else
      var next := PutIfPresent(ps, fields[0].0, fields[0].1);
      assert forall k :: k !in FieldKeys(fields) ==> k !in FieldKeys(fields[1..]) && k != fields[0].0 by {
        forall k | k in FieldKeys(fields[1..]) ensures k in FieldKeys(fields) {
          var i :| 0 <= i < |fields[1..]| && fields[1..][i].0 == k;
          assert fields[i + 1].0 == k;
        }
        assert fields[0].0 in FieldKeys(fields);
      }
      Collect(next, fields[1..])
  }

  lemma FieldKeysAppend(done: seq<Field>, f: Field)
    ensures FieldKeys(done + [f]) == FieldKeys(done) + {f.0}
  {
    var all := done + [f];
    forall k | k in FieldKeys(all) ensures k in FieldKeys(done) + {f.0} {
      var i :| 0 <= i < |all| && all[i].0 == k;
      if i < |done| {
        assert all[i] == done[i];
      }
    }
    forall k | k in FieldKeys(done) + {f.0} ensures k in FieldKeys(all) {
      if k == f.0 {
        assert all[|done|].0 == k;
      } else {
        var i :| 0 <= i < |done| && done[i].0 == k;
        assert all[i] == done[i];
      }
    }
  }

  /** Running the steps of distinct keys on a dictionary that holds exactly `done` holds exactly all of them. */
  lemma {:induction false} CollectHolds(ps: Params, done: seq<Field>, fields: seq<Field>)
    requires HoldsExactly(ps, done)
    requires DistinctFields(done + fields)
    ensures HoldsExactly(Collect(ps, fields), done + fields)
    decreases |fields|
  {
    if |fields| == 0 {
      assert done + fields == done;
    } else {
      var f := fields[0];
      var next := PutIfPresent(ps, f.0, f.1);
      var done' := done + [f];
      var all := done + fields;
      assert all[|done|] == f;
      forall i | 0 <= i < |done| ensures done[i].0 != f.0 {
        assert all[i] == done[i];
      }
      assert f.0 !in FieldKeys(done);
      forall i | 0 <= i < |done'| ensures Lookup(next, done'[i].0) == done'[i].1 {
        if i < |done| {
          assert done'[i] == done[i];
        }
      }
      forall k | k !in FieldKeys(done') ensures Lookup(next, k) == None {
        FieldKeysAppend(done, f);
      }
      assert done' + fields[1..] == all;
      CollectHolds(next, done', fields[1..]);
    }
  }

  /** A dictionary built from no dictionary by distinct steps holds exactly those steps. */
  lemma CollectFresh(fields: seq<Field>)
    requires DistinctFields(fields)
    ensures HoldsExactly(Collect([], fields), fields)
  {
    assert [] + fields == fields;
    CollectHolds([], [], fields);
  }

  // ----- the `urlEncoded` extension -----

  /** The `"\(key)=\(value)"` piece of one entry, nothing escaped. */
  function Piece(e: Entry): (r: string)
    ensures |r| == |e.0| + 1 + |Render(e.1)|
    ensures r[..|e.0|] == e.0 && r[|e.0|] == '=' && r[|e.0| + 1..] == Render(e.1)
  {
    e.0 + "=" + Render(e.1)
  }

  function Pieces(ps: Params): (r: seq<string>)
    ensures |r| == |ps|
    ensures forall i :: 0 <= i < |ps| ==> r[i] == Piece(ps[i])
  {
    Map(Piece, ps)
  }

  /**
   The query string of a dictionary iterated in the order of `ps`: one piece
   per entry, joined by `&`, keys and values copied verbatim.
   */
  function UrlEncoded(ps: Params): (r: string)
    ensures r == "" <==> |ps| == 0
    ensures |ps| >= 1 ==> |r| >= |Piece(ps[0])| && r[..|Piece(ps[0])|] == Piece(ps[0])
  {
    var parts := Pieces(ps);
    if |ps| >= 1 then JoinStartsWithFirst('&', parts); Join('&', parts)
    else Join('&', parts)
  }

  /** Neither the key nor the rendered value of an entry holds `&` or `=`. */
  predicate Plain(e: Entry) {
    '&' !in e.0 && '=' !in e.0 && '&' !in Render(e.1) && '=' !in Render(e.1)
  }

  predicate AllPlain(ps: Params) {
    forall i :: 0 <= i < |ps| ==> Plain(ps[i])
  }

  /** A plain piece splits back on `=` into its key and rendered value. */
  lemma PieceSplits(e: Entry)
    requires Plain(e)
    ensures Split('=', Piece(e)) == [e.0, Render(e.1)]
  {
    SplitAtSep('=', e.0, Render(e.1));
    SplitNone('=', Render(e.1));
  }

  /** Splitting the encoding on `&` gives exactly one `key=value` piece per entry, in order. */
  lemma EncodedPieces(ps: Params)
    requires |ps| >= 1
    requires forall i :: 0 <= i < |ps| ==> '&' !in ps[i].0 && '&' !in Render(ps[i].1)
    ensures Split('&', UrlEncoded(ps)) == Pieces(ps)
  {
    var parts := Pieces(ps);
    forall i | 0 <= i < |parts| ensures '&' !in parts[i] {
      assert parts[i] == ps[i].0 + "=" + Render(ps[i].1);
    }
    SplitJoin('&', parts);
  }

  /** The entries with their values rendered: what a reader of the query string sees. */
  function Rendered(ps: Params): (r: seq<(string, string)>)
    ensures |r| == |ps|
    ensures forall i :: 0 <= i < |ps| ==> r[i] == (ps[i].0, Render(ps[i].1))
  {
    seq(|ps|, i requires 0 <= i < |ps| => (ps[i].0, Render(ps[i].1)))
  }

  /** The reading of a query string that splits on `&` and then on `=`. */
  function DecodeQuery(q: string): Option<seq<(string, string)>> {
    if q == "" then Some([]) else DecodePieces(Split('&', q))
  }

  function DecodePieces(pieces: seq<string>): Option<seq<(string, string)>>
    decreases |pieces|
  {
    if |pieces| == 0 then Some([])
    else
      var kv := Split('=', pieces[0]);
      if |kv| != 2 then None
      else match DecodePieces(pieces[1..])
        case None => None
        case Some(rest) => Some([(kv[0], kv[1])] + rest)
  }

  lemma {:induction false} DecodePiecesOfPlain(ps: Params)
    requires AllPlain(ps)
    ensures DecodePieces(Pieces(ps)) == Some(Rendered(ps))
    decreases |ps|
  {
    if |ps| > 0 {
      PieceSplits(ps[0]);
      assert Pieces(ps)[1..] == Pieces(ps[1..]);
      DecodePiecesOfPlain(ps[1..]);
      assert [(ps[0].0, Render(ps[0].1))] + Rendered(ps[1..]) == Rendered(ps);
    }
  }

  /**
   When no key or rendered value holds `&` or `=`, splitting the encoding on
   `&` and then on `=` recovers the entries, in order.
   */
  lemma DecodeUrlEncoded(ps: Params)
    requires AllPlain(ps)
    ensures DecodeQuery(UrlEncoded(ps)) == Some(Rendered(ps))
  {
    if |ps| >= 1 {
      EncodedPieces(ps);
      DecodePiecesOfPlain(ps);
    }
  }

  /**
   Without escaping the encoding is ambiguous: a value holding `&` and `=`
   encodes exactly like two separate entries.
   */
  lemma UnescapedCollision(k: string, v1: string, k2: string, v2: string)
    requires k != k2
    ensures var one := [(k, Str(v1 + "&" + k2 + "=" + v2))];
            var two := [(k, Str(v1)), (k2, Str(v2))];
            DistinctKeys(one) && DistinctKeys(two) && one != two && UrlEncoded(one) == UrlEncoded(two)
  {
    var one := [(k, Str(v1 + "&" + k2 + "=" + v2))];
    var two := [(k, Str(v1)), (k2, Str(v2))];
    assert Pieces(two)[1..] == [Piece(two[1])];
    assert UrlEncoded(two) == Piece(two[0]) + "&" + Piece(two[1]);
    assert UrlEncoded(one) == Piece(one[0]);
  }

  // ----- iteration order -----

  /** Two dictionaries with the same lookups hold the same entries. */
  lemma SameEntries(ps: Params, qs: Params)
    requires DistinctKeys(ps)
    requires forall k :: Lookup(ps, k) == Lookup(qs, k)
    ensures forall i :: 0 <= i < |ps| ==> ps[i] in qs
  {
    forall i | 0 <= i < |ps| ensures ps[i] in qs {
      LookupEntry(ps, i);
      LookupFinds(qs, ps[i].0);
    }
  }

  /** Any two iteration orders of one dictionary are permutations of each other. */
  lemma SameDictionaryPermuted(ps: Params, qs: Params)
    requires DistinctKeys(ps) && DistinctKeys(qs)
    requires forall k :: Lookup(ps, k) == Lookup(qs, k)
    ensures multiset(ps) == multiset(qs)
  {
    SameEntries(ps, qs);
    SameEntries(qs, ps);
    SameElementsSameMultiset(ps, qs);
  }

  /**
   Any two iteration orders of one dictionary give the same pieces, each as
   often, whatever characters the keys and values hold.
   */
  lemma SameDictionarySamePieceMultiset(ps: Params, qs: Params)
    requires DistinctKeys(ps) && DistinctKeys(qs)
    requires forall k :: Lookup(ps, k) == Lookup(qs, k)
    ensures multiset(Pieces(ps)) == multiset(Pieces(qs))
  {
    SameDictionaryPermuted(ps, qs);
    MapPermuted(Piece, ps, qs);
  }

  /**
   Any two iteration orders of the same dictionary encode to strings that
   split on `&` into the same pieces, each as often, whatever the keys and
   values hold: the encodings differ only in the order of their `&`-pieces.
   */
  lemma SameDictionarySamePieces(ps: Params, qs: Params)
    requires DistinctKeys(ps) && DistinctKeys(qs)
    requires forall k :: Lookup(ps, k) == Lookup(qs, k)
    ensures |qs| == |ps|
    ensures multiset(Split('&', UrlEncoded(ps))) == multiset(Split('&', UrlEncoded(qs)))
  {
    SameDictionaryPermuted(ps, qs);
    assert |ps| == |multiset(ps)| == |multiset(qs)| == |qs|;
    if |ps| >= 1 {
      var a, b := Pieces(ps), Pieces(qs);
      SplitJoinEach('&', a);
      SplitJoinEach('&', b);
      SameDictionarySamePieceMultiset(ps, qs);
      SplitEachPermuted('&', a, b);
      FlattenPermuted(SplitEach('&', a), SplitEach('&', b));
    }
  }

  // ----- what a reader of an encoded dictionary sees -----

  /** A supplied field whose key and rendered value hold neither `&` nor `=`. */
  predicate PlainField(f: Field) {
    f.1.Some? ==> Plain((f.0, f.1.value))
  }

  /** A dictionary holding exactly plain fields has only plain entries. */
  lemma HoldsPlain(ps: Params, fields: seq<Field>)
    requires HoldsExactly(ps, fields)
    requires forall i :: 0 <= i < |fields| ==> PlainField(fields[i])
    ensures AllPlain(ps)
  {
    forall j | 0 <= j < |ps| ensures Plain(ps[j]) {
      LookupEntry(ps, j);
      var i :| 0 <= i < |fields| && fields[i].0 == ps[j].0;
      assert PlainField(fields[i]);
    }
  }

  /** Whether a decoded query has a pair with key `k`. */
  predicate HasKey(d: seq<(string, string)>, k: string) {
    exists i :: 0 <= i < |d| && d[i].0 == k
  }

  /**
   Splitting the encoding of a dictionary of plain fields on `&` and `=`
   gives, for each supplied field, its key and rendered value, no pair for a
   field not supplied, and no pair for any other key.
   */
  lemma DecodeHolds(ps: Params, fields: seq<Field>)
    requires HoldsExactly(ps, fields)
    requires forall i :: 0 <= i < |fields| ==> PlainField(fields[i])
    ensures DecodeQuery(UrlEncoded(ps)).Some?
    ensures var d := DecodeQuery(UrlEncoded(ps)).value;
            && |d| == |ps|
            && (forall i :: 0 <= i < |fields| && fields[i].1.Some? ==> (fields[i].0, Render(fields[i].1.value)) in d)
            && (forall i :: 0 <= i < |fields| && fields[i].1.None? ==> !HasKey(d, fields[i].0))
            && (forall j :: 0 <= j < |d| ==> d[j].0 in FieldKeys(fields))
  {
    HoldsPlain(ps, fields);
    DecodeUrlEncoded(ps);
    var d := Rendered(ps);
    forall i | 0 <= i < |fields| && fields[i].1.Some?
      ensures (fields[i].0, Render(fields[i].1.value)) in d
    {
      LookupFinds(ps, fields[i].0);
      var j :| 0 <= j < |ps| && ps[j] == (fields[i].0, fields[i].1.value);
      assert d[j] == (fields[i].0, Render(fields[i].1.value));
    }
    forall i | 0 <= i < |fields| && fields[i].1.None? ensures !HasKey(d, fields[i].0) {
      if HasKey(d, fields[i].0) {
        var j :| 0 <= j < |d| && d[j].0 == fields[i].0;
        LookupEntry(ps, j);
        assert false;
      }
    }
    forall j | 0 <= j < |d| ensures d[j].0 in FieldKeys(fields) {
      LookupEntry(ps, j);
    }
  }
}
