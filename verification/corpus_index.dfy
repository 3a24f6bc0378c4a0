/** `BM25F#fit`: the corpus statistics computed once per corpus. The
    object's instance variables become an immutable `Index` value. */
module CorpusIndex {
  import opened Wrappers
  import opened RubyHash
  import opened Formula

  /** A field value: a String or nil. */
  datatype Value = Nil | Str(text: string)

  /** A document: field name to value, in insertion order. */
  type Doc = Hash<Value>

  /** term_freq_weight (k1) and doc_length_weight (b) of `BM25F.new`. */
  datatype Params = Params(k1: real, b: real)

  const DefaultParams: Params := Params(1.33, 0.8)

  /** The parameter ranges under which scoring never divides by zero. */
  predicate ParamsOk(p: Params) {
    p.k1 > 0.0 && 0.0 <= p.b <= 1.0
  }

  /** Everything `fit` stores except the field weights. `avgDocLength` is
      None for an empty corpus, where `calculate_average_document_length`
      computes 0 / 0.0 (NaN). */
  datatype Stats = Stats(
    params: Params,
    docs: seq<Doc>,
    avgDocLength: Option<real>,
    docLengths: seq<map<string, nat>>,
    totalDocs: nat,
    idf: map<string, real>)

  datatype Index = Index(weights: Hash<real>, stats: Stats)

  /** `fit` raises NoMethodError when a weighted field of some document is
      nil or missing (`nil.empty?`); the error names the field and document. */
  datatype FitError = NilField(field: string, docId: nat)

  // ---------------------------------------------------------------------
  // Field-weight defaulting

  /** `documents.flat_map(&:keys)`. */
  function AllKeys(docs: seq<Doc>): (ks: seq<string>)
    ensures forall k :: k in ks <==> exists i :: 0 <= i < |docs| && k in Keys(docs[i])
  {
    if |docs| == 0 then []
    else
      var rest := AllKeys(docs[1..]);
      assert forall i :: 1 <= i < |docs| ==> docs[i] == docs[1..][i - 1];
      Keys(docs[0]) + rest
  }

  /** `Array#uniq`: the first occurrence of every element, in order. */
  function Uniq(s: seq<string>): (u: seq<string>)
    ensures forall x :: x in u <==> x in s
    ensures forall i, j :: 0 <= i < j < |u| ==> u[i] != u[j]
  {
    if |s| == 0 then []
    else
      var init := s[..|s| - 1];
      assert s == init + [s[|s| - 1]];
      var u := Uniq(init);
      if s[|s| - 1] in u then u else u + [s[|s| - 1]]
  }

  /** `field_weights[key] = 1 unless field_weights.key?(key)` for each key
      in turn. */
  function AddDefaultWeights(weights: Hash<real>, keys: seq<string>): (r: Hash<real>)
    ensures |weights| <= |r| && r[..|weights|] == weights
    ensures forall k :: k in Keys(r) <==> k in Keys(weights) || k in keys
    ensures forall k :: k in Keys(weights) ==> Get(r, k) == Get(weights, k)
    decreases |keys|
  {
    if |keys| == 0 then weights
    else
      var w := if keys[0] in Keys(weights) then weights else Set(weights, keys[0], 1.0);
      var r := AddDefaultWeights(w, keys[1..]);
      assert r[..|weights|] == r[..|w|][..|weights|];
      r
  }

  /** The weights `fit` ends up with: the caller's entries unchanged and in
      place, followed by weight 1 for every other document key, in order of
      first appearance. */
  function DefaultWeights(weights: Hash<real>, docs: seq<Doc>): (r: Hash<real>)
    ensures |weights| <= |r| && r[..|weights|] == weights
    ensures forall k :: k in Keys(r) <==> k in Keys(weights) || k in AllKeys(docs)
    ensures forall k :: k in Keys(weights) ==> Get(r, k) == Get(weights, k)
  {
    AddDefaultWeights(weights, Uniq(AllKeys(docs)))
  }

  /** A key the caller did not weight gets weight 1. */
  lemma {:induction false} AddDefaultWeightsGivesOne(weights: Hash<real>, keys: seq<string>, k: string)
    requires k in keys && k !in Keys(weights)
    ensures Get(AddDefaultWeights(weights, keys), k) == Some(1.0)
    decreases |keys|
  {
    var w := if keys[0] in Keys(weights) then weights else Set(weights, keys[0], 1.0);
    assert AddDefaultWeights(weights, keys) == AddDefaultWeights(w, keys[1..]);
    if k == keys[0] {
      assert Get(w, k) == Some(1.0);
    } else {
      assert k in keys[1..];
      AddDefaultWeightsGivesOne(w, keys[1..], k);
    }
  }

  /** Every document key the caller did not weight gets weight 1. */
  lemma DefaultWeightsGivesOne(weights: Hash<real>, docs: seq<Doc>, k: string)
    requires k in AllKeys(docs) && k !in Keys(weights)
    ensures Get(DefaultWeights(weights, docs), k) == Some(1.0)
  {
    AddDefaultWeightsGivesOne(weights, Uniq(AllKeys(docs)), k);
  }

  /** The position of the first occurrence of `x` in `s`. */
  function FirstIndex(s: seq<string>, x: string): (i: nat)
    requires x in s
    ensures i < |s| && s[i] == x
    ensures forall k :: 0 <= k < i ==> s[k] != x
  {
    if s[0] == x then 0 else 1 + FirstIndex(s[1..], x)
  }

  /** Appending an element leaves earlier first occurrences in place. */
  lemma FirstIndexSnoc(init: seq<string>, y: string)
    ensures forall x :: x in init ==> FirstIndex(init + [y], x) == FirstIndex(init, x)
    ensures y !in init ==> FirstIndex(init + [y], y) == |init|
  {
    forall x | x in init
      ensures FirstIndex(init + [y], x) == FirstIndex(init, x)
    {
      var i := FirstIndex(init, x);
      var k := FirstIndex(init + [y], x);
      assert (init + [y])[i] == x;
    }
  }

  /** `uniq` lists the elements in order of their first occurrence. */
  lemma {:induction false} UniqOrder(s: seq<string>)
    ensures forall i, j :: 0 <= i < j < |Uniq(s)| ==> FirstIndex(s, Uniq(s)[i]) < FirstIndex(s, Uniq(s)[j])
    decreases |s|
  {
    if |s| > 0 {
      var init := s[..|s| - 1];
      var y := s[|s| - 1];
      assert s == init + [y];
      UniqOrder(init);
      FirstIndexSnoc(init, y);
      var u := Uniq(s);
      var u0 := Uniq(init);
      forall i, j | 0 <= i < j < |u|
        ensures FirstIndex(s, u[i]) < FirstIndex(s, u[j])
      {
        assert u[i] == u0[i] && u[i] in init;
        if j < |u0| {
          assert u[j] == u0[j] && u[j] in init;
        } else {
          assert u[j] == y && y !in init;
        }
      }
    }
  }

  /** The keys `AddDefaultWeights` appends come from `keys`, in the order
      of their first occurrence there. */
  lemma {:induction false} AddDefaultWeightsOrder(weights: Hash<real>, keys: seq<string>)
    ensures forall i :: |weights| <= i < |AddDefaultWeights(weights, keys)| ==>
      AddDefaultWeights(weights, keys)[i].0 in keys
    ensures forall i, j :: |weights| <= i < j < |AddDefaultWeights(weights, keys)| ==>
      FirstIndex(keys, AddDefaultWeights(weights, keys)[i].0) < FirstIndex(keys, AddDefaultWeights(weights, keys)[j].0)
    decreases |keys|
  {
    if |keys| > 0 {
      var k0 := keys[0];
      var w := if k0 in Keys(weights) then weights else Set(weights, k0, 1.0);
      var r := AddDefaultWeights(w, keys[1..]);
      assert AddDefaultWeights(weights, keys) == r;
      AddDefaultWeightsOrder(w, keys[1..]);
      AppendedAfterFirst(w, r, keys);
      if w != weights {
        assert r[|weights|] == r[..|w|][|weights|] == (k0, 1.0);
      }
      forall i | |weights| <= i < |r|
        ensures r[i].0 in keys
      {
        if i >= |w| {
          assert r[i].0 in keys[1..];
        }
      }
      forall i, j | |weights| <= i < j < |r|
        ensures FirstIndex(keys, r[i].0) < FirstIndex(keys, r[j].0)
      {
        if i < |w| {
          assert r[i].0 == k0;
        }
      }
    }
  }

  /** One step of `AddDefaultWeightsOrder`: once `keys[0]` is among the
      first |w| keys of `r`, every later key is positioned in `keys` one
      further than in `keys[1..]`. */
  lemma AppendedAfterFirst(w: Hash<real>, r: Hash<real>, keys: seq<string>)
    requires |keys| > 0 && keys[0] in Keys(w)
    requires |w| <= |r| && r[..|w|] == w
    requires forall i :: |w| <= i < |r| ==> r[i].0 in keys[1..]
    ensures forall i :: |w| <= i < |r| ==>
      r[i].0 != keys[0] && FirstIndex(keys, r[i].0) == 1 + FirstIndex(keys[1..], r[i].0)
  {
    var p :| 0 <= p < |w| && w[p].0 == keys[0];
    assert r[p] == r[..|w|][p];
  }

  /** The keys `fit` adds follow the caller's weights: they are exactly the
      document keys the caller did not weight, in order of first appearance
      in `documents.flat_map(&:keys)`. */
  lemma DefaultWeightsOrder(weights: Hash<real>, docs: seq<Doc>)
    ensures forall i :: |weights| <= i < |DefaultWeights(weights, docs)| ==>
      DefaultWeights(weights, docs)[i].0 in AllKeys(docs) && DefaultWeights(weights, docs)[i].0 !in Keys(weights)
    ensures forall i, j :: |weights| <= i < j < |DefaultWeights(weights, docs)| ==>
      FirstIndex(AllKeys(docs), DefaultWeights(weights, docs)[i].0)
        < FirstIndex(AllKeys(docs), DefaultWeights(weights, docs)[j].0)
  {
    var ks := AllKeys(docs);
    var u := Uniq(ks);
    var r := DefaultWeights(weights, docs);
    AddDefaultWeightsOrder(weights, u);
    UniqOrder(ks);
    forall i | |weights| <= i < |r|
      ensures r[i].0 in ks && r[i].0 !in Keys(weights)
    {
    }
    forall i, j | |weights| <= i < j < |r|
      ensures FirstIndex(ks, r[i].0) < FirstIndex(ks, r[j].0)
    {
      var a := FirstIndex(u, r[i].0);
      var b := FirstIndex(u, r[j].0);
      assert u[a] == r[i].0 && u[b] == r[j].0 && a < b;
    }
  }

  // ---------------------------------------------------------------------
  // Lengths

  /** `v.nil? ? 0 : v.length`. */
  function ValueLength(v: Value): nat {
    match v
    case Nil => 0
    case Str(t) => |t|
  }

  /** The characters of one document, summed over all of its fields. */
  function DocTotalLength(d: seq<(string, Value)>): nat {
    if |d| == 0 then 0 else ValueLength(d[0].1) + DocTotalLength(d[1..])
  }

  /** The characters of the whole corpus. */
  function TotalLength(docs: seq<Doc>): nat {
    if |docs| == 0 then 0 else DocTotalLength(docs[0]) + TotalLength(docs[1..])
  }

  lemma {:induction false} DocTotalLengthPositive(d: seq<(string, Value)>)
    ensures DocTotalLength(d) > 0 <==> exists j :: 0 <= j < |d| && ValueLength(d[j].1) > 0
  {
    if |d| > 0 {
      DocTotalLengthPositive(d[1..]);
      if exists j :: 1 <= j < |d| && ValueLength(d[j].1) > 0 {
        var j :| 1 <= j < |d| && ValueLength(d[j].1) > 0;
        assert ValueLength(d[1..][j - 1].1) > 0;
      }
      if exists j :: 0 <= j < |d[1..]| && ValueLength(d[1..][j].1) > 0 {
        var j :| 0 <= j < |d[1..]| && ValueLength(d[1..][j].1) > 0;
        assert ValueLength(d[j + 1].1) > 0;
      }
    }
  }

  /** The corpus has a positive length exactly when some document does. */
  lemma {:induction false} TotalLengthPositiveDocs(docs: seq<Doc>)
    ensures TotalLength(docs) > 0 <==> exists i :: 0 <= i < |docs| && DocTotalLength(docs[i]) > 0
  {
    if |docs| > 0 {
      TotalLengthPositiveDocs(docs[1..]);
      if exists i :: 1 <= i < |docs| && DocTotalLength(docs[i]) > 0 {
        var i :| 1 <= i < |docs| && DocTotalLength(docs[i]) > 0;
        assert docs[1..][i - 1] == docs[i];
      }
      if exists i :: 0 <= i < |docs[1..]| && DocTotalLength(docs[1..][i]) > 0 {
        var i :| 0 <= i < |docs[1..]| && DocTotalLength(docs[1..][i]) > 0;
        assert docs[i + 1] == docs[1..][i];
      }
    }
  }

  /** The corpus has a positive length exactly when some field of some
      document is a non-empty String. */
  lemma TotalLengthPositive(docs: seq<Doc>)
    ensures TotalLength(docs) > 0 <==>
      exists i, j :: 0 <= i < |docs| && 0 <= j < |docs[i]| && ValueLength(docs[i][j].1) > 0
  {
    TotalLengthPositiveDocs(docs);
    if TotalLength(docs) > 0 {
      var i :| 0 <= i < |docs| && DocTotalLength(docs[i]) > 0;
      DocTotalLengthPositive(docs[i]);
      var j :| 0 <= j < |docs[i]| && ValueLength(docs[i][j].1) > 0;
    }
    if exists i, j :: 0 <= i < |docs| && 0 <= j < |docs[i]| && ValueLength(docs[i][j].1) > 0 {
      var i, j :| 0 <= i < |docs| && 0 <= j < |docs[i]| && ValueLength(docs[i][j].1) > 0;
      DocTotalLengthPositive(docs[i]);
    }
  }

  /** `calculate_average_document_length`: one global average, the total
      length of all fields of all documents over the number of documents;
      None stands for the NaN of an empty corpus. */
  function AverageDocumentLength(docs: seq<Doc>): (avg: Option<real>)
    ensures avg.None? <==> |docs| == 0
    ensures avg.Some? ==> avg.value * |docs| as real == TotalLength(docs) as real
    ensures avg.Some? ==> avg.value >= 0.0
    ensures avg.Some? ==> (avg.value > 0.0 <==>
      exists i, j :: 0 <= i < |docs| && 0 <= j < |docs[i]| && ValueLength(docs[i][j].1) > 0)
  {
    if |docs| == 0 then None
    else
      TotalLengthPositive(docs);
      var avg := TotalLength(docs) as real / |docs| as real;
      assert avg * |docs| as real == TotalLength(docs) as real;
      Some(avg)
  }

  /** The per-field lengths of one document (`transform_values`). */
  function LengthMap(d: Doc): (m: map<string, nat>)
    ensures forall k :: k in m <==> k in Keys(d)
    ensures forall j :: 0 <= j < |d| ==> m[d[j].0] == ValueLength(d[j].1)
  {
    map k | k in Keys(d) :: ValueLength(Get(d, k).value)
  }

  /** `calculate_document_lengths`: for document i, exactly its keys, each
      mapped to the character length of its value (0 for nil). */
  function DocumentLengths(docs: seq<Doc>): (table: seq<map<string, nat>>)
    ensures |table| == |docs|
    ensures forall i, k :: 0 <= i < |docs| ==> (k in table[i] <==> k in Keys(docs[i]))
    ensures forall i, j :: 0 <= i < |docs| && 0 <= j < |docs[i]| ==>
      docs[i][j].0 in table[i] && table[i][docs[i][j].0] == ValueLength(docs[i][j].1)
  {
    seq(|docs|, i requires 0 <= i < |docs| => LengthMap(docs[i]))
  }

  /** The sum of a length map over the given keys. */
  ghost function RowTotal(m: map<string, nat>, keys: seq<string>): nat
    requires forall k :: k in keys ==> k in m
  {
    if |keys| == 0 then 0 else m[keys[0]] + RowTotal(m, keys[1..])
  }

  /** The sum of a length table over every key of every document. */
  ghost function TableTotal(table: seq<map<string, nat>>, docs: seq<Doc>): nat
    requires |table| == |docs|
    requires forall i, k :: 0 <= i < |docs| && k in Keys(docs[i]) ==> k in table[i]
  {
    if |docs| == 0 then 0
    else RowTotal(table[0], Keys(docs[0])) + TableTotal(table[1..], docs[1..])
  }

  lemma {:induction false} RowTotalIsDocTotal(m: map<string, nat>, d: seq<(string, Value)>)
    requires forall j :: 0 <= j < |d| ==> d[j].0 in m && m[d[j].0] == ValueLength(d[j].1)
    ensures forall k :: k in Keys(d) ==> k in m
    ensures RowTotal(m, Keys(d)) == DocTotalLength(d)
  {
    if |d| > 0 {
      RowTotalIsDocTotal(m, d[1..]);
      assert Keys(d)[1..] == Keys(d[1..]);
    }
  }

  lemma {:induction false} TableTotalIsTotal(table: seq<map<string, nat>>, docs: seq<Doc>)
    requires |table| == |docs|
    requires forall i, j :: 0 <= i < |docs| && 0 <= j < |docs[i]| ==>
      docs[i][j].0 in table[i] && table[i][docs[i][j].0] == ValueLength(docs[i][j].1)
    ensures forall i, k :: 0 <= i < |docs| && k in Keys(docs[i]) ==> k in table[i]
    ensures TableTotal(table, docs) == TotalLength(docs)
  {
    if |docs| > 0 {
      RowTotalIsDocTotal(table[0], docs[0]);
      TableTotalIsTotal(table[1..], docs[1..]);
    }
  }

  /** The average and the length table agree: average times document count
      is the sum of every entry of every document's length map. */
  lemma LengthTableMatchesAverage(docs: seq<Doc>)
    requires |docs| > 0
    ensures forall i, k :: 0 <= i < |docs| && k in Keys(docs[i]) ==> k in DocumentLengths(docs)[i]
    ensures AverageDocumentLength(docs).value * |docs| as real
            == TableTotal(DocumentLengths(docs), docs) as real
  {
    TableTotalIsTotal(DocumentLengths(docs), docs);
  }

  // ---------------------------------------------------------------------
  // Document frequency and IDF

  /** The field is present with a String value (so `.empty?`, `.scan` and
      `.length` do not raise). */
  predicate HasString(d: Doc, f: string) {
    Get(d, f).Some? && Get(d, f).value.Str?
  }

  function FieldText(d: Doc, f: string): string
    requires HasString(d, f)
  {
    Get(d, f).value.text
  }

  /** The field is a non-empty String. */
  predicate NonEmptyField(d: Doc, f: string) {
    HasString(d, f) && |FieldText(d, f)| > 0
  }

  /** `@documents.count { |doc| !doc[field].empty? }`. */
  function DocFreq(docs: seq<Doc>, f: string): (df: nat)
    requires forall i :: 0 <= i < |docs| ==> HasString(docs[i], f)
    ensures df <= |docs|
  {
    if |docs| == 0 then 0
    else
      var n := |docs| - 1;
      DocFreq(docs[..n], f) + (if NonEmptyField(docs[n], f) then 1 else 0)
  }

  /** The positions of the documents whose field `f` is non-empty. */
  ghost function NonEmptyDocs(docs: seq<Doc>, f: string): set<nat> {
    set i: nat | i < |docs| && NonEmptyField(docs[i], f)
  }

  lemma NonEmptyDocsSnoc(docs: seq<Doc>, f: string)
    requires |docs| > 0
    ensures NonEmptyDocs(docs, f) ==
      NonEmptyDocs(docs[..|docs| - 1], f) + (if NonEmptyField(docs[|docs| - 1], f) then {|docs| - 1} else {})
  {
    var n := |docs| - 1;
    var extra: set<nat> := if NonEmptyField(docs[n], f) then {n} else {};
    forall i: nat
      ensures i in NonEmptyDocs(docs, f) <==> i in NonEmptyDocs(docs[..n], f) + extra
    {
      if i < n {
        assert docs[..n][i] == docs[i];
      }
    }
  }

  /** The document frequency is the number of documents whose field text
      is non-empty. */
  lemma {:induction false} DocFreqCountsNonEmpty(docs: seq<Doc>, f: string)
    requires forall i :: 0 <= i < |docs| ==> HasString(docs[i], f)
    ensures DocFreq(docs, f) == |NonEmptyDocs(docs, f)|
  {
    if |docs| > 0 {
      var n := |docs| - 1;
      DocFreqCountsNonEmpty(docs[..n], f);
      NonEmptyDocsSnoc(docs, f);
      assert n !in NonEmptyDocs(docs[..n], f);
    }
  }

  /** Every field's document frequency is its count of non-empty documents. */
  lemma DocFreqsCountNonEmpty(fields: seq<string>, docs: seq<Doc>)
    requires forall f, i :: f in fields && 0 <= i < |docs| ==> HasString(docs[i], f)
    ensures forall f :: f in fields ==> DocFreq(docs, f) == |NonEmptyDocs(docs, f)| <= |docs|
  {
    forall f | f in fields
      ensures DocFreq(docs, f) == |NonEmptyDocs(docs, f)|
    {
      DocFreqCountsNonEmpty(docs, f);
    }
  }

  /** `calculate_idf`: one IDF per weighted field. Each is positive, is the
      smoothed IDF of the number of documents in which the field is
      non-empty, and a field non-empty in more documents gets a strictly
      smaller IDF. */
  function IdfTable(fields: seq<string>, docs: seq<Doc>, log: real -> real): (idf: map<string, real>)
    requires IsLog(log)
    requires forall f, i :: f in fields && 0 <= i < |docs| ==> HasString(docs[i], f)
    ensures forall f :: f in idf <==> f in fields
    ensures forall f :: f in fields ==> idf[f] > 0.0
    ensures forall f :: f in fields ==> |NonEmptyDocs(docs, f)| <= |docs|
    ensures forall f :: f in fields ==> idf[f] == Idf(|docs|, |NonEmptyDocs(docs, f)|, log)
    ensures forall f, g :: f in fields && g in fields && |NonEmptyDocs(docs, f)| < |NonEmptyDocs(docs, g)| ==>
      idf[g] < idf[f]
  {
    DocFreqsCountNonEmpty(fields, docs);
    var idf := map f | f in fields :: Idf(|docs|, DocFreq(docs, f), log);
    assert forall f, g :: f in fields && g in fields && DocFreq(docs, f) < DocFreq(docs, g) ==>
      idf[g] < idf[f] by {
      forall f, g | f in fields && g in fields && DocFreq(docs, f) < DocFreq(docs, g)
        ensures idf[g] < idf[f]
      {
        IdfDecreasing(|docs|, DocFreq(docs, f), DocFreq(docs, g), log);
      }
    }
    idf
  }

  // ---------------------------------------------------------------------
  // The NoMethodError of calculate_idf

  /** The first document whose field `f` is not a String. */
  function NilDoc(docs: seq<Doc>, f: string): (r: Option<nat>)
    ensures r.None? <==> forall i :: 0 <= i < |docs| ==> HasString(docs[i], f)
    ensures r.Some? ==> r.value < |docs| && !HasString(docs[r.value], f)
    ensures r.Some? ==> forall i :: 0 <= i < r.value ==> HasString(docs[i], f)
  {
    if |docs| == 0 then None
    else if !HasString(docs[0], f) then Some(0)
    else
      match NilDoc(docs[1..], f)
      case None => None
      case Some(i) => Some(i + 1)
  }

  /** The error `calculate_idf` raises: the first weighted field (in weight
      order) that is not a String in some document, with the first such
      document; None when every weighted field is a String everywhere. */
  function FirstNilField(fields: seq<string>, docs: seq<Doc>): (r: Option<FitError>)
    ensures r.None? <==> forall f, i :: f in fields && 0 <= i < |docs| ==> HasString(docs[i], f)
    ensures r.Some? ==> r.value.field in fields && r.value.docId < |docs|
    ensures r.Some? ==> !HasString(docs[r.value.docId], r.value.field)
    ensures r.Some? ==> forall i :: 0 <= i < r.value.docId ==> HasString(docs[i], r.value.field)
  {
    if |fields| == 0 then None
    else
      assert forall f :: f in fields <==> f == fields[0] || f in fields[1..];
      match NilDoc(docs, fields[0])
      case Some(i) =>
        assert fields[0] in fields && !HasString(docs[i], fields[0]);
        Some(NilField(fields[0], i))
      case None => FirstNilField(fields[1..], docs)
  }

  /** The field `FirstNilField` names is the first failing one in weight
      order: every field listed before its first position is a String in
      every document. */
  lemma {:induction false} FirstNilFieldIsFirst(fields: seq<string>, docs: seq<Doc>)
    requires FirstNilField(fields, docs).Some?
    ensures forall j, i :: 0 <= j < FirstIndex(fields, FirstNilField(fields, docs).value.field) && 0 <= i < |docs| ==>
      HasString(docs[i], fields[j])
    decreases |fields|
  {
    var e := FirstNilField(fields, docs).value;
    if NilDoc(docs, fields[0]).None? {
      var tl := fields[1..];
      assert e == FirstNilField(tl, docs).value;
      FirstNilFieldIsFirst(tl, docs);
      assert e.field != fields[0];
      assert FirstIndex(fields, e.field) == 1 + FirstIndex(tl, e.field);
      forall j, i | 0 <= j < FirstIndex(fields, e.field) && 0 <= i < |docs|
        ensures HasString(docs[i], fields[j])
      {
        if j > 0 {
          assert fields[j] == tl[j - 1];
        }
      }
    }
  }

  // ---------------------------------------------------------------------
  // fit

  /** The field is ready to be scored in document `d`: a String whose
      recorded length is its character count, with an IDF. */
  predicate FieldReady(st: Stats, d: nat, f: string) {
    && d < |st.docs| && d < |st.docLengths|
    && HasString(st.docs[d], f)
    && f in st.docLengths[d] && st.docLengths[d][f] == |FieldText(st.docs[d], f)|
    && f in st.idf
  }

  /** What every index produced by `Fit` satisfies. */
  ghost predicate Valid(ix: Index) {
    && ix.stats.totalDocs == |ix.stats.docs| == |ix.stats.docLengths|
    && (ix.stats.avgDocLength.Some? <==> |ix.stats.docs| > 0)
    && (ix.stats.avgDocLength.Some? ==> ix.stats.avgDocLength.value >= 0.0)
    && (forall d: nat, f :: d < |ix.stats.docs| && f in Keys(ix.weights) ==> FieldReady(ix.stats, d, f))
    && (forall f :: f in Keys(ix.weights) ==> f in ix.stats.idf && ix.stats.idf[f] > 0.0)
  }

  /** Statistics built from the documents' own length table are ready for
      every field that is a String everywhere and has an IDF. */
  lemma StatsFieldsReady(st: Stats, fields: seq<string>)
    requires st.docLengths == DocumentLengths(st.docs)
    requires forall f, i :: f in fields && 0 <= i < |st.docs| ==> HasString(st.docs[i], f)
    requires forall f :: f in fields ==> f in st.idf
    ensures forall d: nat, f :: d < |st.docs| && f in fields ==> FieldReady(st, d, f)
  {
    forall d: nat, f | d < |st.docs| && f in fields
      ensures FieldReady(st, d, f)
    {
      var doc := st.docs[d];
      assert HasString(doc, f);
      var j :| 0 <= j < |doc| && doc[j].0 == f;
      assert Get(doc, f) == Some(doc[j].1);
      assert st.docLengths[d][f] == ValueLength(doc[j].1);
    }
  }

  /** The index `fit` stores once the weights are settled and every
      weighted field is known to be a String in every document. */
  function BuildIndex(params: Params, docs: seq<Doc>, w: Hash<real>, log: real -> real): (ix: Index)
    requires IsLog(log)
    requires forall f, i :: f in Keys(w) && 0 <= i < |docs| ==> HasString(docs[i], f)
    ensures Valid(ix)
    ensures ix.weights == w && ix.stats.params == params && ix.stats.docs == docs
    ensures ix.stats.avgDocLength == AverageDocumentLength(docs)
    ensures ix.stats.docLengths == DocumentLengths(docs)
    ensures forall f :: f in ix.stats.idf <==> f in Keys(w)
    ensures forall f :: f in Keys(w) ==> ix.stats.idf[f] == Idf(|docs|, DocFreq(docs, f), log)
  {
    var idf := IdfTable(Keys(w), docs, log);
    DocFreqsCountNonEmpty(Keys(w), docs);
    var st := Stats(params, docs, AverageDocumentLength(docs), DocumentLengths(docs), |docs|, idf);
    StatsFieldsReady(st, Keys(w));
    Index(w, st)
  }

  /** A field of the settled weights is the caller's or some document's. */
  lemma WeightedFieldOrigin(weights: Hash<real>, docs: seq<Doc>, f: string)
    requires f in Keys(DefaultWeights(weights, docs))
    ensures f in Keys(weights) || f in AllKeys(docs)
  {
  }

  /** When every settled weight names a String field everywhere, so does
      every field the caller or a document names. */
  lemma WeightedFieldsAreStrings(weights: Hash<real>, docs: seq<Doc>)
    requires forall f, i :: f in Keys(DefaultWeights(weights, docs)) && 0 <= i < |docs| ==> HasString(docs[i], f)
    ensures forall i, f :: 0 <= i < |docs| && (f in Keys(weights) || f in AllKeys(docs)) ==> HasString(docs[i], f)
  {
    var w := DefaultWeights(weights, docs);
    forall i, f | 0 <= i < |docs| && (f in Keys(weights) || f in AllKeys(docs))
      ensures HasString(docs[i], f)
    {
      assert f in Keys(w);
    }
  }

  /** `BM25F#fit(documents, field_weights)`. It succeeds exactly when every
      field of the settled weights is a String in every document. */
  function Fit(params: Params, docs: seq<Doc>, weights: Hash<real>, log: real -> real)
    : (r: Result<Index, FitError>)
    requires IsLog(log)
    ensures r.Success? <==>
      forall f, i :: f in Keys(DefaultWeights(weights, docs)) && 0 <= i < |docs| ==> HasString(docs[i], f)
    ensures r.Failure? ==>
      && r.error.docId < |docs|
      && (r.error.field in Keys(weights) || r.error.field in AllKeys(docs))
      && !HasString(docs[r.error.docId], r.error.field)
    ensures r.Success? ==> r.value == BuildIndex(params, docs, DefaultWeights(weights, docs), log)
  {
    var w := DefaultWeights(weights, docs);
    match FirstNilField(Keys(w), docs)
    case Some(e) =>
      WeightedFieldOrigin(weights, docs, e.field);
      Failure(e)
    case None => Success(BuildIndex(params, docs, w, log))
  }

  /** `fit` succeeds exactly when every field named by the caller's weights
      or by any document is a String in every document. */
  lemma FitSucceedsIff(params: Params, docs: seq<Doc>, weights: Hash<real>, log: real -> real)
    requires IsLog(log)
    ensures Fit(params, docs, weights, log).Success? ==>
      forall i, f :: 0 <= i < |docs| && (f in Keys(weights) || f in AllKeys(docs)) ==> HasString(docs[i], f)
    ensures (forall i, f :: 0 <= i < |docs| && (f in Keys(weights) || f in AllKeys(docs)) ==> HasString(docs[i], f))
      ==> Fit(params, docs, weights, log).Success?
  {
    var r := Fit(params, docs, weights, log);
    if r.Success? {
      WeightedFieldsAreStrings(weights, docs);
    } else {
      var i, f := r.error.docId, r.error.field;
      assert 0 <= i < |docs| && (f in Keys(weights) || f in AllKeys(docs)) && !HasString(docs[i], f);
    }
  }
}
