/**
 * The 98-entry feature record the no-show model expects (17 clinical and
 * demographic features, then 81 one-hot neighbourhood indicators), and the
 * setter that selects one neighbourhood in such a record.
 */
module PatientFeatures {

  /** A feature value: Python ints and the one float default. */
  datatype Feature = Int(i: int) | Float(r: real)

  const Prefix: string := "Neighbourhood_"

  /** `key.startswith("Neighbourhood_")`. */
  predicate IsNeighbourhoodKey(k: string)
  {
    Prefix <= k
  }

  function NeighbourhoodKey(name: string): (k: string)
    ensures IsNeighbourhoodKey(k) && k[|Prefix|..] == name
  {
    Prefix + name
  }

  /** The basic features, in the order of the record. */
  const BasicKeys: seq<string> := [
    "Gender",
    "Age",
    "Scholarship",
    "Hypertension",
    "Diabetes",
    "Alcoholism",
    "Handicap",
    "SmsReceived",
    "LeadDays",
    "ScheduledDayOfWeek",
    "ScheduledDayDay",
    "AppointmentDayDay",
    "AppointmentDayOfWeek",
    "NoShowRate",
    "LastShowStatus",
    "AppointmentCount",
    "LastAppointmentDays"
  ]

  /** The default value of a basic feature (sample patient data). */
  function BasicValue(k: string): Feature
  {
    if k == "Gender" then Int(1)
    else if k == "Age" then Int(35)
    else if k == "Scholarship" then Int(0)
    else if k == "Hypertension" then Int(0)
    else if k == "Diabetes" then Int(0)
    else if k == "Alcoholism" then Int(0)
    else if k == "Handicap" then Int(0)
    else if k == "SmsReceived" then Int(1)
    else if k == "LeadDays" then Int(5)
    else if k == "ScheduledDayOfWeek" then Int(2)
    else if k == "ScheduledDayDay" then Int(15)
    else if k == "AppointmentDayDay" then Int(16)
    else if k == "AppointmentDayOfWeek" then Int(3)
    else if k == "NoShowRate" then Float(0.0)
    else if k == "LastShowStatus" then Int(1)
    else if k == "AppointmentCount" then Int(3)
    else if k == "LastAppointmentDays" then Int(10)
    else Int(0)
  }

  // The neighbourhood names in the order of the record, grouped by initial letter.
  const NamesAToC: seq<string> := [
    "AEROPORTO",
    "ANDORINHAS",
    "ANTNIO_HONRIO",
    "ARIOVALDO_FAVALESSA",
    "BARRO_VERMELHO",
    "BELA_VISTA",
    "BENTO_FERREIRA",
    "BOA_VISTA",
    "BONFIM",
    "CARATORA",
    "CENTRO",
    "COMDUSA",
    "CONQUISTA",
    "CONSOLAO",
    "CRUZAMENTO"]
  const NamesDToH: seq<string> := [
    "DA_PENHA",
    "DE_LOURDES",
    "DO_CABRAL",
    "DO_MOSCOSO",
    "DO_QUADRO",
    "ENSEADA_DO_SU",
    "ESTRELINHA",
    "FONTE_GRANDE",
    "FORTE_SO_JOO",
    "FRADINHOS",
    "GOIABEIRAS",
    "GRANDE_VITRIA",
    "GURIGICA",
    "HORTO"]
  const NamesIToJ: seq<string> := [
    "ILHA_DAS_CAIEIRAS",
    "ILHA_DE_SANTA_MARIA",
    "ILHA_DO_BOI",
    "ILHA_DO_FRADE",
    "ILHA_DO_PRNCIPE",
    "ILHAS_OCENICAS_DE_TRINDADE",
    "INHANGUET",
    "ITARAR",
    "JABOUR",
    "JARDIM_CAMBURI",
    "JARDIM_DA_PENHA",
    "JESUS_DE_NAZARETH",
    "JOANA_DARC",
    "JUCUTUQUARA"]
  const NamesMToP: seq<string> := [
    "MARIA_ORTIZ",
    "MARUPE",
    "MATA_DA_PRAIA",
    "MONTE_BELO",
    "MORADA_DE_CAMBURI",
    "MRIO_CYPRESTE",
    "NAZARETH",
    "NOVA_PALESTINA",
    "PARQUE_INDUSTRIAL",
    "PARQUE_MOSCOSO",
    "PIEDADE",
    "PONTAL_DE_CAMBURI",
    "PRAIA_DO_CANTO",
    "PRAIA_DO_SU"]
  const NamesR: seq<string> := [
    "REDENO",
    "REPBLICA",
    "RESISTNCIA",
    "ROMO"]
  const NamesSA: seq<string> := [
    "SANTA_CECLIA",
    "SANTA_CLARA",
    "SANTA_HELENA",
    "SANTA_LUZA",
    "SANTA_LCIA",
    "SANTA_MARTHA",
    "SANTA_TEREZA",
    "SANTO_ANDR",
    "SANTO_ANTNIO",
    "SANTOS_DUMONT",
    "SANTOS_REIS"]

  const NamesSEToSO: seq<string> := [
    "SEGURANA_DO_LAR",
    "SOLON_BORGES",
    "SO_BENEDITO",
    "SO_CRISTVO",
    "SO_JOS",
    "SO_PEDRO"]

  const NamesS: seq<string> := NamesSA + NamesSEToSO
  const NamesTToV: seq<string> := [
    "TABUAZEIRO",
    "UNIVERSITRIO",
    "VILA_RUBIM"]

  const NeighbourhoodNames: seq<string> :=
    NamesAToC + NamesDToH + NamesIToJ + NamesMToP + NamesR + NamesS + NamesTToV

  function NeighbourhoodKeys(names: seq<string>): (ks: seq<string>)
    ensures |ks| == |names|
    ensures forall i :: 0 <= i < |names| ==> ks[i] == NeighbourhoodKey(names[i])
  {
    seq(|names|, i requires 0 <= i < |names| => NeighbourhoodKey(names[i]))
  }

  /** Every key of the record, in order. */
  function FeatureKeys(): seq<string>
  {
    BasicKeys + NeighbourhoodKeys(NeighbourhoodNames)
  }

  // ---------------------------------------------------------------------------
  // Distinctness of the keys
  // ---------------------------------------------------------------------------

  predicate Distinct(s: seq<string>)
  {
    forall i, j :: 0 <= i < j < |s| ==> s[i] != s[j]
  }

  /** Every element is non-empty and starts with a character in `lo..hi`. */
  predicate StartsWithin(s: seq<string>, lo: char, hi: char)
  {
    forall i :: 0 <= i < |s| ==> |s[i]| > 0 && lo <= s[i][0] <= hi
  }

  /** Two distinct lists whose initial letters lie in separate ranges join into a distinct list. */
  lemma DistinctJoin(a: seq<string>, b: seq<string>, lo1: char, hi1: char, lo2: char, hi2: char)
    requires Distinct(a) && StartsWithin(a, lo1, hi1)
    requires Distinct(b) && StartsWithin(b, lo2, hi2)
    requires lo1 <= hi1 < lo2 <= hi2
    ensures Distinct(a + b) && StartsWithin(a + b, lo1, hi2)
  {
    forall i | 0 <= i < |a + b|
      ensures |(a + b)[i]| > 0 && lo1 <= (a + b)[i][0] <= hi2
    {
      if i < |a| {
        assert (a + b)[i] == a[i];
      } else {
        assert (a + b)[i] == b[i - |a|];
      }
    }
    forall i, j | 0 <= i < j < |a + b|
      ensures (a + b)[i] != (a + b)[j]
    {
      if i < |a| <= j {
        assert (a + b)[i] == a[i] && (a + b)[j] == b[j - |a|];
        assert a[i][0] <= hi1 < lo2 <= b[j - |a|][0];
      }
    }
  }

  lemma NamesAToCDistinct()
    ensures Distinct(NamesAToC) && StartsWithin(NamesAToC, 'A', 'C')
  {
  }

  lemma NamesDToHDistinct()
    ensures Distinct(NamesDToH) && StartsWithin(NamesDToH, 'D', 'H')
  {
  }

  lemma NamesIToJDistinct()
    ensures Distinct(NamesIToJ) && StartsWithin(NamesIToJ, 'I', 'J')
  {
  }

  lemma NamesMToPDistinct()
    ensures Distinct(NamesMToP) && StartsWithin(NamesMToP, 'M', 'P')
  {
  }

  lemma NamesRDistinct()
    ensures Distinct(NamesR) && StartsWithin(NamesR, 'R', 'R')
  {
  }

  /** Every element has a second character in `lo..hi`. */
  predicate SecondWithin(s: seq<string>, lo: char, hi: char)
  {
    forall i :: 0 <= i < |s| ==> |s[i]| > 1 && lo <= s[i][1] <= hi
  }

  /** Two distinct lists with the same initial and second letters in separate ranges join into a distinct list. */
  lemma DistinctJoinSecond(a: seq<string>, b: seq<string>, c: char, lo1: char, hi1: char, lo2: char, hi2: char)
    requires Distinct(a) && StartsWithin(a, c, c) && SecondWithin(a, lo1, hi1)
    requires Distinct(b) && StartsWithin(b, c, c) && SecondWithin(b, lo2, hi2)
    requires hi1 < lo2
    ensures Distinct(a + b) && StartsWithin(a + b, c, c)
  {
    forall i | 0 <= i < |a + b|
      ensures |(a + b)[i]| > 0 && c <= (a + b)[i][0] <= c
    {
      if i < |a| {
        assert (a + b)[i] == a[i];
      } else {
        assert (a + b)[i] == b[i - |a|];
      }
    }
    forall i, j | 0 <= i < j < |a + b|
      ensures (a + b)[i] != (a + b)[j]
    {
      if i < |a| <= j {
        assert (a + b)[i] == a[i] && (a + b)[j] == b[j - |a|];
        assert a[i][1] <= hi1 < lo2 <= b[j - |a|][1];
      }
    }
  }

  lemma NamesSADistinct()
    ensures Distinct(NamesSA) && StartsWithin(NamesSA, 'S', 'S') && SecondWithin(NamesSA, 'A', 'A')
  {
  }

  lemma NamesSEToSODistinct()
    ensures Distinct(NamesSEToSO) && StartsWithin(NamesSEToSO, 'S', 'S') && SecondWithin(NamesSEToSO, 'E', 'O')
  {
  }

  lemma NamesSDistinct()
    ensures Distinct(NamesS) && StartsWithin(NamesS, 'S', 'S')
  {
    NamesSADistinct();
    NamesSEToSODistinct();
    DistinctJoinSecond(NamesSA, NamesSEToSO, 'S', 'A', 'A', 'E', 'O');
  }

  lemma NamesTToVDistinct()
    ensures Distinct(NamesTToV) && StartsWithin(NamesTToV, 'T', 'V')
  {
  }

  /** The 81 neighbourhood names are distinct upper-case-initial names. */
  lemma NeighbourhoodNamesDistinct()
    ensures |NeighbourhoodNames| == 81
    ensures Distinct(NeighbourhoodNames) && StartsWithin(NeighbourhoodNames, 'A', 'V')
  {
    NamesAToCDistinct();
    NamesDToHDistinct();
    NamesIToJDistinct();
    NamesMToPDistinct();
    NamesRDistinct();
    NamesSDistinct();
    NamesTToVDistinct();
    DistinctJoin(NamesAToC, NamesDToH, 'A', 'C', 'D', 'H');
    DistinctJoin(NamesAToC + NamesDToH, NamesIToJ, 'A', 'H', 'I', 'J');
    DistinctJoin(NamesAToC + NamesDToH + NamesIToJ, NamesMToP, 'A', 'J', 'M', 'P');
    DistinctJoin(NamesAToC + NamesDToH + NamesIToJ + NamesMToP, NamesR, 'A', 'P', 'R', 'R');
    DistinctJoin(NamesAToC + NamesDToH + NamesIToJ + NamesMToP + NamesR, NamesS, 'A', 'R', 'S', 'S');
    DistinctJoin(NamesAToC + NamesDToH + NamesIToJ + NamesMToP + NamesR + NamesS, NamesTToV, 'A', 'S', 'T', 'V');
  }

  lemma BasicKeysDistinct()
    ensures |BasicKeys| == 17
    ensures Distinct(BasicKeys)
    ensures forall i :: 0 <= i < |BasicKeys| ==> !IsNeighbourhoodKey(BasicKeys[i])
  {
    BasicKeysListed();
    BasicKeysNotNeighbourhood();
  }

  /** Each basic key is the one `BasicIndex` finds at its own position, so no two positions share a key. */
  lemma BasicKeysListed()
    ensures Distinct(BasicKeys)
  {
    forall i | 0 <= i < |BasicKeys|
      ensures BasicIndex(BasicKeys[i]) == i
    {
    }
  }

  /** The position of a basic key in `BasicKeys`, 17 for any other string. */
  function BasicIndex(k: string): int
  {
    if k == "Gender" then 0
    else if k == "Age" then 1
    else if k == "Scholarship" then 2
    else if k == "Hypertension" then 3
    else if k == "Diabetes" then 4
    else if k == "Alcoholism" then 5
    else if k == "Handicap" then 6
    else if k == "SmsReceived" then 7
    else if k == "LeadDays" then 8
    else if k == "ScheduledDayOfWeek" then 9
    else if k == "ScheduledDayDay" then 10
    else if k == "AppointmentDayDay" then 11
    else if k == "AppointmentDayOfWeek" then 12
    else if k == "NoShowRate" then 13
    else if k == "LastShowStatus" then 14
    else if k == "AppointmentCount" then 15
    else if k == "LastAppointmentDays" then 16
    else 17
  }

  /** No basic key starts with the neighbourhood prefix. */
  lemma BasicKeysNotNeighbourhood()
    ensures forall i :: 0 <= i < |BasicKeys| ==> !IsNeighbourhoodKey(BasicKeys[i])
    ensures forall k :: k in BasicKeys ==> !IsNeighbourhoodKey(k)
  {
    forall i | 0 <= i < |BasicKeys|
      ensures !IsNeighbourhoodKey(BasicKeys[i])
    {
      if IsNeighbourhoodKey(BasicKeys[i]) {
        NeighbourhoodKeyShape(BasicKeys[i]);
        assert false;
      }
    }
  }

  /** A neighbourhood key is at least as long as the prefix and starts "Ne". */
  lemma NeighbourhoodKeyShape(k: string)
    requires IsNeighbourhoodKey(k)
    ensures |k| >= |Prefix| && k[0] == 'N' && k[1] == 'e'
  {
    assert k[..|Prefix|] == Prefix;
  }

  /** Prefixing distinct names gives distinct keys. */
  lemma NeighbourhoodKeysDistinct(names: seq<string>)
    requires Distinct(names)
    ensures Distinct(NeighbourhoodKeys(names))
  {
    var ks := NeighbourhoodKeys(names);
    forall i, j | 0 <= i < j < |ks|
      ensures ks[i] != ks[j]
    {
      assert ks[i][|Prefix|..] == names[i] && ks[j][|Prefix|..] == names[j];
    }
  }

  /** A list of distinct elements has as many elements as its set. */
  lemma {:induction false} DistinctCardinality(s: seq<string>)
    requires Distinct(s)
    ensures |set x | x in s| == |s|
  {
    if s != [] {
      var rest := s[1..];
      assert Distinct(rest);
      DistinctCardinality(rest);
      assert (set x | x in s) == (set x | x in rest) + {s[0]};
      assert s[0] !in rest;
    }
  }

  lemma FeatureKeysDistinct()
    ensures |FeatureKeys()| == 98
    ensures Distinct(FeatureKeys())
  {
    NeighbourhoodNamesDistinct();
    BasicKeysDistinct();
    NeighbourhoodKeysDistinct(NeighbourhoodNames);
    var b := BasicKeys;
    var n := NeighbourhoodKeys(NeighbourhoodNames);
    forall i, j | 0 <= i < j < |b + n|
      ensures (b + n)[i] != (b + n)[j]
    {
      if i < |b| <= j {
        assert !IsNeighbourhoodKey((b + n)[i]) && IsNeighbourhoodKey((b + n)[j]);
      }
    }
  }

  // ---------------------------------------------------------------------------
  // The sample record
  // ---------------------------------------------------------------------------

  /** The keys of a record that are neighbourhood indicators. */
  function NeighbourhoodKeysOf(d: map<string, Feature>): set<string>
  {
    set k | k in d && IsNeighbourhoodKey(k)
  }

  /** The record over the keys `ks`, each holding its default value. */
  function RecordOf(ks: seq<string>): (d: map<string, Feature>)
    ensures d.Keys == set k | k in ks
    ensures forall k :: k in d ==> d[k] == (if IsNeighbourhoodKey(k) then Int(0) else BasicValue(k))
  {
    map k | k in ks :: if IsNeighbourhoodKey(k) then Int(0) else BasicValue(k)
  }

  /** The tail of a list of distinct elements is a list of distinct elements. */
  lemma DistinctSuffix(b: seq<string>, n: seq<string>)
    requires Distinct(b + n)
    ensures Distinct(n)
  {
    forall i, j | 0 <= i < j < |n|
      ensures n[i] != n[j]
    {
      ConcatIndex(b, n, i);
      ConcatIndex(b, n, j);
    }
  }

  lemma ConcatIndex(b: seq<string>, n: seq<string>, i: int)
    requires 0 <= i < |n|
    ensures (b + n)[|b| + i] == n[i]
  {
  }

  /** Every prefixed key is a neighbourhood key. */
  lemma PrefixedKeys(names: seq<string>)
    ensures forall k :: k in NeighbourhoodKeys(names) ==> IsNeighbourhoodKey(k)
  {
    forall k | k in NeighbourhoodKeys(names)
      ensures IsNeighbourhoodKey(k)
    {
      var i :| 0 <= i < |names| && NeighbourhoodKeys(names)[i] == k;
    }
  }

  /**
   * Basic keys without the prefix followed by distinct prefixed keys give a
   * record with one entry per key and one indicator per prefixed key.
   */
  lemma RecordSizes(b: seq<string>, n: seq<string>)
    requires Distinct(b + n)
    requires forall k :: k in b ==> !IsNeighbourhoodKey(k)
    requires forall k :: k in n ==> IsNeighbourhoodKey(k)
    ensures |RecordOf(b + n)| == |b| + |n|
    ensures |NeighbourhoodKeysOf(RecordOf(b + n))| == |n|
  {
    var d := RecordOf(b + n);
    DistinctCardinality(b + n);
    assert |d| == |d.Keys|;
    DistinctSuffix(b, n);
    DistinctCardinality(n);
    assert NeighbourhoodKeysOf(d) == set k | k in n;
  }

  function GetCorrectPatientData(): (d: map<string, Feature>)
    ensures |d| == 98
    ensures |NeighbourhoodKeysOf(d)| == 81
    ensures d.Keys == set k | k in FeatureKeys()
    ensures forall k :: k in d && IsNeighbourhoodKey(k) ==> d[k] == Int(0)
    ensures forall k :: k in d && !IsNeighbourhoodKey(k) ==> d[k] == BasicValue(k)
    ensures forall i :: 0 <= i < |BasicKeys| ==> BasicKeys[i] in d
  {
    SampleKeyFacts();
    RecordOf(FeatureKeys())
  }

  lemma SampleKeyFacts()
    ensures |RecordOf(FeatureKeys())| == 98
    ensures |NeighbourhoodKeysOf(RecordOf(FeatureKeys()))| == 81
  {
    FeatureKeysDistinct();
    BasicKeysDistinct();
    NeighbourhoodNamesDistinct();
    PrefixedKeys(NeighbourhoodNames);
    RecordSizes(BasicKeys, NeighbourhoodKeys(NeighbourhoodNames));
  }

  // ---------------------------------------------------------------------------
  // Selecting a neighbourhood
  // ---------------------------------------------------------------------------

  /** The record with every neighbourhood indicator reset to 0. */
  function ResetNeighbourhoods(data: map<string, Feature>): (c: map<string, Feature>)
    ensures c.Keys == data.Keys
    ensures forall k :: k in c ==> c[k] == (if IsNeighbourhoodKey(k) then Int(0) else data[k])
  {
    map k | k in data :: if IsNeighbourhoodKey(k) then Int(0) else data[k]
  }

  /** What `set_neighbourhood` leaves in the record. */
  function WithNeighbourhood(data: map<string, Feature>, name: string): map<string, Feature>
  {
    var cleared := ResetNeighbourhoods(data);
    var key := NeighbourhoodKey(name);
    if key in cleared then cleared[key := Int(1)] else cleared
  }

  /**
   * Resets every neighbourhood indicator in a pass over the keys, then sets the
   * indicator of `name` when the record has one; the record is updated in place
   * in the source, so the updated record is the result here.
   */
  method SetNeighbourhood(data: map<string, Feature>, name: string) returns (r: map<string, Feature>)
    ensures r == WithNeighbourhood(data, name)
  {
    r := data;
    var pending := data.Keys;
    while pending != {}
      invariant pending <= data.Keys
      invariant r.Keys == data.Keys
      invariant forall k :: k in r ==> r[k] == (if k in pending then data[k] else ResetNeighbourhoods(data)[k])
      decreases pending
    {
      var k :| k in pending;
      if IsNeighbourhoodKey(k) {
        r := r[k := Int(0)];
      }
      pending := pending - {k};
    }
    assert r == ResetNeighbourhoods(data);
    var key := NeighbourhoodKey(name);
    if key in r {
      r := r[key := Int(1)];
    }
  }

  /** The key set and every basic feature are left as they were. */
  lemma WithNeighbourhoodKeepsBasics(data: map<string, Feature>, name: string)
    ensures WithNeighbourhood(data, name).Keys == data.Keys
    ensures forall k :: k in data && !IsNeighbourhoodKey(k) ==> WithNeighbourhood(data, name)[k] == data[k]
  {
  }

  /**
   * Every indicator is 0 except that of `name`, which is 1 when the record has
   * it; so at most one indicator is 1, and a name the record lacks, such as a
   * lower-case spelling, leaves them all 0.
   */
  lemma WithNeighbourhoodOneHot(data: map<string, Feature>, name: string)
    ensures var r := WithNeighbourhood(data, name);
            forall k :: k in r && IsNeighbourhoodKey(k) ==>
              r[k] == (if k == NeighbourhoodKey(name) then Int(1) else Int(0))
    ensures var r := WithNeighbourhood(data, name);
            forall k1, k2 ::
              (k1 in r && k2 in r && IsNeighbourhoodKey(k1) && IsNeighbourhoodKey(k2) &&
               r[k1] == Int(1) && r[k2] == Int(1)) ==> k1 == k2
  {
  }

  /** Only the last selection counts; in particular selecting twice is selecting once. */
  lemma WithNeighbourhoodLastWins(data: map<string, Feature>, first: string, name: string)
    ensures WithNeighbourhood(WithNeighbourhood(data, first), name) == WithNeighbourhood(data, name)
  {
    var once := WithNeighbourhood(data, first);
    assert ResetNeighbourhoods(once) == ResetNeighbourhoods(data);
  }

  lemma SetTwiceIsSetOnce(data: map<string, Feature>, name: string)
    ensures WithNeighbourhood(WithNeighbourhood(data, name), name) == WithNeighbourhood(data, name)
  {
    WithNeighbourhoodLastWins(data, name, name);
  }

  /**
   * The lookup is case-sensitive: the sample record has an indicator for
   * "CENTRO" but none for "centro", so by `WithNeighbourhoodOneHot` selecting
   * "centro" leaves every indicator 0.
   */
  lemma NeighbourhoodLookupIsCaseSensitive()
    ensures NeighbourhoodKey("CENTRO") in GetCorrectPatientData()
    ensures NeighbourhoodKey("centro") !in GetCorrectPatientData()
  {
    SampleHasCentro();
    SampleNeighbourhoodInitials();
    var lower := NeighbourhoodKey("centro");
    assert lower[|Prefix|] == 'c';
  }

  lemma SampleHasCentro()
    ensures NeighbourhoodKey("CENTRO") in GetCorrectPatientData()
  {
    assert NeighbourhoodNames[10] == "CENTRO";
    assert FeatureKeys()[|BasicKeys| + 10] == NeighbourhoodKey("CENTRO");
  }

  /** Every neighbourhood name of the sample record starts with a capital between A and V. */
  lemma SampleNeighbourhoodInitials()
    ensures forall k :: k in GetCorrectPatientData() && IsNeighbourhoodKey(k) ==>
              |k| > |Prefix| && 'A' <= k[|Prefix|] <= 'V'
  {
    NeighbourhoodNamesDistinct();
    BasicKeysNotNeighbourhood();
    var ns := NeighbourhoodKeys(NeighbourhoodNames);
    PrefixedInitials(NeighbourhoodNames);
    forall k | k in GetCorrectPatientData() && IsNeighbourhoodKey(k)
      ensures k in ns
    {
      assert k in BasicKeys + ns;
    }
  }

  /** A prefixed name starting with a capital between A and V has that capital right after the prefix. */
  lemma PrefixedInitials(names: seq<string>)
    requires StartsWithin(names, 'A', 'V')
    ensures forall k :: k in NeighbourhoodKeys(names) ==> |k| > |Prefix| && 'A' <= k[|Prefix|] <= 'V'
  {
    forall k | k in NeighbourhoodKeys(names)
      ensures |k| > |Prefix| && 'A' <= k[|Prefix|] <= 'V'
    {
      var i :| 0 <= i < |names| && NeighbourhoodKeys(names)[i] == k;
      assert k == Prefix + names[i];
      assert k[|Prefix|] == names[i][0];
    }
  }
}
