/** The de-duplication loop of `load_records_from_inpi` (analise_marca.py):
    the rows the INPI search returned become trademark records, with blanks
    stripped, a missing class replaced by the queried class and a missing
    status by "N/D"; rows without a name are dropped, and of the rows whose
    normalised (name, class, status) agree only the first is kept. The
    search itself is not part of this model: its rows are the input. */
module InpiRecords {
  import opened PyStr
  import opened Normalization
  import opened Scoring

  /** A row of the INPI search; an attribute the row lacks is empty. */
  datatype InpiRow = InpiRow(marca: string, classe: string, situacao: string, numero: string, titular: string)

  type Key = (string, string, string)

  /** Python's `(value or default).strip()`: only an empty value takes the
      default, and a value of blanks becomes empty. */
  function OrDefault(value: string, default: string): string {
    Strip(if value != [] then value else default)
  }

  /** The record a row becomes. */
  function Prepare(row: InpiRow, niceClass: string): TrademarkRecord {
    TrademarkRecord(
      name := OrDefault(row.marca, ""),
      niceClass := OrDefault(row.classe, niceClass),
      status := OrDefault(row.situacao, "N/D"),
      numero := OrDefault(row.numero, ""),
      titular := OrDefault(row.titular, ""))
  }

  function Prepared(rows: seq<InpiRow>, niceClass: string): (ps: seq<TrademarkRecord>)
    ensures |ps| == |rows|
  {
    if rows == [] then [] else [Prepare(rows[0], niceClass)] + Prepared(rows[1..], niceClass)
  }

  lemma {:induction false} PreparedAt(rows: seq<InpiRow>, niceClass: string, i: nat)
    requires i < |rows|
    ensures Prepared(rows, niceClass)[i] == Prepare(rows[i], niceClass)
  {
    if i > 0 {
      PreparedAt(rows[1..], niceClass, i - 1);
    }
  }

  /** The key two records must not share. */
  function KeyOf(r: TrademarkRecord): Key {
    (Normalize(r.name), Normalize(r.niceClass), Normalize(r.status))
  }

  // The selection below is stated for any key function `key`; the loop
  // uses `KeyOf`.

  /** The keys of the named records among the first `n`: the `seen` set
      after `n` rows. */
  function SeenKeys(ps: seq<TrademarkRecord>, key: TrademarkRecord -> Key, n: nat): set<Key>
    requires n <= |ps|
  {
    set j | 0 <= j < n && ps[j].name != [] :: key(ps[j])
  }

  /** Record `i` is kept: it has a name and its key was not seen before. */
  predicate KeptAt(ps: seq<TrademarkRecord>, key: TrademarkRecord -> Key, i: nat)
    requires i < |ps|
  {
    ps[i].name != [] && key(ps[i]) !in SeenKeys(ps, key, i)
  }

  /** The records kept among the first `n`, in input order. */
  function Kept(ps: seq<TrademarkRecord>, key: TrademarkRecord -> Key, n: nat): seq<TrademarkRecord>
    requires n <= |ps|
  {
    if n == 0 then [] else Kept(ps, key, n - 1) + (if KeptAt(ps, key, n - 1) then [ps[n - 1]] else [])
  }

  /** The positions of the kept records among the first `n`. */
  function KeptPositions(ps: seq<TrademarkRecord>, key: TrademarkRecord -> Key, n: nat): (pos: seq<nat>)
    requires n <= |ps|
    ensures forall k | 0 <= k < |pos| :: pos[k] < n
  {
    if n == 0 then [] else KeptPositions(ps, key, n - 1) + (if KeptAt(ps, key, n - 1) then [n - 1] else [])
  }

  /** The records `load_records_from_inpi` returns for `rows`. */
  function Deduplicated(rows: seq<InpiRow>, niceClass: string): seq<TrademarkRecord> {
    var ps := Prepared(rows, niceClass);
    Kept(ps, KeyOf, |rows|)
  }

  /** The loop of `load_records_from_inpi`. */
  method DeduplicateRows(rows: seq<InpiRow>, niceClass: string) returns (records: seq<TrademarkRecord>)
    ensures records == Deduplicated(rows, niceClass)
  {
    records := [];
    var seen: set<Key> := {};
    var i := 0;
    while i < |rows|
      invariant 0 <= i <= |rows|
      invariant records == Kept(Prepared(rows, niceClass), KeyOf, i)
      invariant seen == SeenKeys(Prepared(rows, niceClass), KeyOf, i)
    {
      records, seen := ConsiderRow(rows, niceClass, i, records, seen);
      i := i + 1;
    }
  }

  /** One iteration: the row is kept when it has a name and an unseen key. */
  method ConsiderRow(rows: seq<InpiRow>, niceClass: string, i: nat, records: seq<TrademarkRecord>, seen: set<Key>)
    returns (records': seq<TrademarkRecord>, seen': set<Key>)
    requires i < |rows|
    requires records == Kept(Prepared(rows, niceClass), KeyOf, i)
    requires seen == SeenKeys(Prepared(rows, niceClass), KeyOf, i)
    ensures records' == Kept(Prepared(rows, niceClass), KeyOf, i + 1)
    ensures seen' == SeenKeys(Prepared(rows, niceClass), KeyOf, i + 1)
  {
    ghost var ps := Prepared(rows, niceClass);
    var rec := PrepareRow(rows[i], niceClass);
    var k := RowKey(rec);
    PreparedAt(rows, niceClass, i);
    KeepStep(ps, KeyOf, i, records, seen, k);
    records', seen' := records, seen;
    if rec.name != [] && k !in seen {
      seen' := seen + {k};
      records' := records + [rec];
    }
  }

  /** The fields of one row, stripped and defaulted: the assignments of
      the loop body one by one, which `Prepare` states as one value. */
  method PrepareRow(r: InpiRow, niceClass: string) returns (rec: TrademarkRecord)
    ensures rec == Prepare(r, niceClass)
  {
    var name := OrDefault(r.marca, "");
    var cls := OrDefault(r.classe, niceClass);
    var status := OrDefault(r.situacao, "N/D");
    var numero := OrDefault(r.numero, "");
    var titular := OrDefault(r.titular, "");
    rec := TrademarkRecord(name, cls, status, numero, titular);
  }

  /** The `(normalize_text(marca), normalize_text(classe), normalize_text(situacao))` key of a record,
      computed by the loop body as `KeyOf` defines it. */
  method RowKey(rec: TrademarkRecord) returns (k: Key)
    ensures k == KeyOf(rec)
  {
    k := (Normalize(rec.name), Normalize(rec.niceClass), Normalize(rec.status));
  }

  /** One more row adds its key to `seen` when it has a name. */
  lemma SeenKeysStep(ps: seq<TrademarkRecord>, key: TrademarkRecord -> Key, i: nat)
    requires i < |ps|
    ensures SeenKeys(ps, key, i + 1) == SeenKeys(ps, key, i) + (if ps[i].name != [] then {key(ps[i])} else {})
  {
  }

  /** One iteration of the loop, for any key function. */
  lemma KeepStep(ps: seq<TrademarkRecord>, key: TrademarkRecord -> Key, i: nat,
                 records: seq<TrademarkRecord>, seen: set<Key>, k: Key)
    requires i < |ps| && k == key(ps[i])
    requires records == Kept(ps, key, i) && seen == SeenKeys(ps, key, i)
    ensures ps[i].name != [] && k !in seen ==>
      Kept(ps, key, i + 1) == records + [ps[i]] && SeenKeys(ps, key, i + 1) == seen + {k}
    ensures !(ps[i].name != [] && k !in seen) ==>
      Kept(ps, key, i + 1) == records && SeenKeys(ps, key, i + 1) == seen
  {
    SeenKeysStep(ps, key, i);
  }

  // ---------------------------------------------------------------------
  // Properties of the de-duplication
  // ---------------------------------------------------------------------

  /** Recording a row's class and status uses the queried class and "N/D"
      when the row has none; the other fields are the row's, stripped. */
  lemma PrepareDefaults(row: InpiRow, niceClass: string)
    ensures var r := Prepare(row, niceClass);
      r.name == Strip(row.marca) && r.numero == Strip(row.numero) && r.titular == Strip(row.titular)
      && (row.classe == [] ==> r.niceClass == Strip(niceClass))
      && (row.classe != [] ==> r.niceClass == Strip(row.classe))
      && (row.situacao == [] ==> r.status == "N/D")
      && (row.situacao != [] ==> r.status == Strip(row.situacao))
  {
    var nd := "N/D";
    assert !IsSpace(nd[0]) && !IsSpace(nd[|nd| - 1]);
  }

  /** A record is kept exactly when it has a name and no earlier named
      record has the same key: the first occurrence wins. */
  lemma KeptAtFirstOccurrence(ps: seq<TrademarkRecord>, key: TrademarkRecord -> Key, i: nat)
    requires i < |ps|
    ensures KeptAt(ps, key, i) <==>
      ps[i].name != [] && forall j | 0 <= j < i :: ps[j].name != [] ==> key(ps[j]) != key(ps[i])
  {
    if !KeptAt(ps, key, i) && ps[i].name != [] {
      var j :| 0 <= j < i && ps[j].name != [] && key(ps[j]) == key(ps[i]);
    }
  }

  /** The kept records are the records at strictly increasing positions of
      the input, exactly the positions where a record is kept: input order
      is preserved and nothing else is dropped or added. */
  lemma {:induction false} KeptInOrder(ps: seq<TrademarkRecord>, key: TrademarkRecord -> Key, n: nat)
    requires n <= |ps|
    ensures |KeptPositions(ps, key, n)| == |Kept(ps, key, n)|
    ensures forall k | 0 <= k < |KeptPositions(ps, key, n)| ::
      Kept(ps, key, n)[k] == ps[KeptPositions(ps, key, n)[k]]
    ensures forall a, b | 0 <= a < b < |KeptPositions(ps, key, n)| ::
      KeptPositions(ps, key, n)[a] < KeptPositions(ps, key, n)[b]
    ensures forall i | 0 <= i < n :: i in KeptPositions(ps, key, n) <==> KeptAt(ps, key, i)
  {
    if n > 0 {
      KeptInOrder(ps, key, n - 1);
    }
  }

  /** The kept positions hold named records with pairwise distinct keys. */
  lemma {:induction false} KeptPositionsDistinct(ps: seq<TrademarkRecord>, key: TrademarkRecord -> Key, n: nat)
    requires n <= |ps|
    ensures forall k | 0 <= k < |KeptPositions(ps, key, n)| ::
      ps[KeptPositions(ps, key, n)[k]].name != [] && key(ps[KeptPositions(ps, key, n)[k]]) in SeenKeys(ps, key, n)
    ensures forall a, b | 0 <= a < b < |KeptPositions(ps, key, n)| ::
      key(ps[KeptPositions(ps, key, n)[a]]) != key(ps[KeptPositions(ps, key, n)[b]])
  {
    if n > 0 {
      var pos := KeptPositions(ps, key, n);
      var prev := KeptPositions(ps, key, n - 1);
      var seen := SeenKeys(ps, key, n);
      KeptPositionsDistinct(ps, key, n - 1);
      assert forall k | 0 <= k < |prev| :: ps[prev[k]].name != [];
      SeenKeysStep(ps, key, n - 1);
      assert SeenKeys(ps, key, n - 1) <= seen;
      assert pos == prev + (if KeptAt(ps, key, n - 1) then [n - 1] else []);
      forall k | 0 <= k < |pos| ensures ps[pos[k]].name != [] && key(ps[pos[k]]) in seen {
        if k < |prev| {
          assert pos[k] == prev[k];
          assert ps[prev[k]].name != [];
          assert key(ps[prev[k]]) in SeenKeys(ps, key, n - 1);
        } else {
          assert pos[k] == n - 1;
        }
      }
      forall a, b | 0 <= a < b < |pos| ensures key(ps[pos[a]]) != key(ps[pos[b]]) {
        assert pos[a] == prev[a];
        if b < |prev| {
          assert pos[b] == prev[b];
        } else {
          assert pos[b] == n - 1 && KeptAt(ps, key, n - 1);
          assert key(ps[prev[a]]) in SeenKeys(ps, key, n - 1);
        }
      }
    }
  }

  /** Some kept record among the first `n` has key `x`. */
  predicate Represented(ps: seq<TrademarkRecord>, key: TrademarkRecord -> Key, n: nat, x: Key)
    requires n <= |ps|
  {
    exists k | 0 <= k < |KeptPositions(ps, key, n)| :: key(ps[KeptPositions(ps, key, n)[k]]) == x
  }

  /** No key is lost: every named record among the first `n` shares its key
      with a kept record. */
  lemma KeptPositionsCover(ps: seq<TrademarkRecord>, key: TrademarkRecord -> Key, n: nat)
    requires n <= |ps|
    ensures forall j | 0 <= j < n && ps[j].name != [] :: Represented(ps, key, n, key(ps[j]))
  {
    forall j | 0 <= j < n && ps[j].name != [] ensures Represented(ps, key, n, key(ps[j])) {
      var k := KeptRepresentative(ps, key, n, j);
    }
  }

  /** The kept position that represents the key of the named record `j`. */
  lemma {:induction false} KeptRepresentative(ps: seq<TrademarkRecord>, key: TrademarkRecord -> Key, n: nat, j: nat)
    returns (k: nat)
    requires j < n <= |ps| && ps[j].name != []
    ensures k < |KeptPositions(ps, key, n)| && key(ps[KeptPositions(ps, key, n)[k]]) == key(ps[j])
  {
    var pos := KeptPositions(ps, key, n);
    var prev := KeptPositions(ps, key, n - 1);
    assert pos == prev + (if KeptAt(ps, key, n - 1) then [n - 1] else []);
    if j == n - 1 && KeptAt(ps, key, n - 1) {
      k := |prev|;
    } else {
      var j' := j;
      if j == n - 1 {
        j' :| 0 <= j' < n - 1 && ps[j'].name != [] && key(ps[j']) == key(ps[n - 1]);
      }
      k := KeptRepresentative(ps, key, n - 1, j');
      assert pos[k] == prev[k];
    }
  }

  /** The kept records: each is one of the records and has a name, no two
      share a key, and every named record's key is represented. */
  lemma KeptRecords(ps: seq<TrademarkRecord>, key: TrademarkRecord -> Key, n: nat)
    requires n <= |ps|
    ensures forall r | r in Kept(ps, key, n) :: r in ps && r.name != []
    ensures forall a, b | 0 <= a < b < |Kept(ps, key, n)| :: key(Kept(ps, key, n)[a]) != key(Kept(ps, key, n)[b])
    ensures forall j | 0 <= j < n && ps[j].name != [] :: key(ps[j]) in KeysOf(Kept(ps, key, n), key)
  {
    var kept := Kept(ps, key, n);
    var pos := KeptPositions(ps, key, n);
    KeptInOrder(ps, key, n);
    KeptPositionsDistinct(ps, key, n);
    KeptPositionsCover(ps, key, n);
    forall r | r in kept ensures r in ps && r.name != [] {
      var k :| 0 <= k < |kept| && kept[k] == r;
      assert kept[k] == ps[pos[k]];
    }
    forall a, b | 0 <= a < b < |kept| ensures key(kept[a]) != key(kept[b]) {
      assert kept[a] == ps[pos[a]] && kept[b] == ps[pos[b]];
    }
    forall j | 0 <= j < n && ps[j].name != [] ensures key(ps[j]) in KeysOf(kept, key) {
      assert Represented(ps, key, n, key(ps[j]));
      var k :| 0 <= k < |pos| && key(ps[pos[k]]) == key(ps[j]);
      assert kept[k] == ps[pos[k]];
    }
  }

  /** The keys of some records. */
  function KeysOf(rs: seq<TrademarkRecord>, key: TrademarkRecord -> Key): set<Key> {
    set r | r in rs :: key(r)
  }

  /** The records `load_records_from_inpi` returns: each is one of the
      prepared rows and has a name, no two share a normalised (name, class,
      status), and the key of every named row is among theirs. */
  lemma DeduplicatedRecords(rows: seq<InpiRow>, niceClass: string)
    ensures forall r | r in Deduplicated(rows, niceClass) :: r in Prepared(rows, niceClass) && r.name != []
    ensures forall a, b | 0 <= a < b < |Deduplicated(rows, niceClass)| ::
      KeyOf(Deduplicated(rows, niceClass)[a]) != KeyOf(Deduplicated(rows, niceClass)[b])
    ensures forall j | 0 <= j < |rows| && Prepared(rows, niceClass)[j].name != [] ::
      KeyOf(Prepared(rows, niceClass)[j]) in KeysOf(Deduplicated(rows, niceClass), KeyOf)
  {
    KeptRecords(Prepared(rows, niceClass), KeyOf, |rows|);
  }
}
