/**
 * The closed table of likelihood labels and their odds. Odds are kept in integer
 * hundredths (0.95 is 95): the loop only ever compares them, and scaling keeps their order.
 */
module Probabilities {
  import opened Wrappers
  import opened JavaText

  datatype Probability =
    | PieceOfCake
    | WalkInThePark
    | SureThing
    | Hmmm
    | QuiteLikely
    | Gamble
    | Risky
    | RatherDetrimental
    | PlayingWithFire
    | SuicideMission
    | Impossible

  /** `values()`: every level, in declaration order. */
  const Levels: seq<Probability> := [
    PieceOfCake, WalkInThePark, SureThing, Hmmm, QuiteLikely, Gamble,
    Risky, RatherDetrimental, PlayingWithFire, SuicideMission, Impossible]

  /** The display label the API uses. */
  function Label(p: Probability): string {
    match p
    case PieceOfCake => "Piece of cake"
    case WalkInThePark => "Walk in the park"
    case SureThing => "Sure thing"
    case Hmmm => "Hmmm...."
    case QuiteLikely => "Quite likely"
    case Gamble => "Gamble"
    case Risky => "Risky"
    case RatherDetrimental => "Rather detrimental"
    case PlayingWithFire => "Playing with fire"
    case SuicideMission => "Suicide mission"
    case Impossible => "Impossible"
  }

  /** The odds, in hundredths. */
  function Value(p: Probability): (v: nat)
    ensures v <= 100
  {
    match p
    case PieceOfCake => 95
    case WalkInThePark => 85
    case SureThing => 80
    case Hmmm => 75
    case QuiteLikely => 65
    case Gamble => 60
    case Risky => 30
    case RatherDetrimental => 28
    case PlayingWithFire => 25
    case SuicideMission => 10
    case Impossible => 0
  }

  /** The key of a level in the case-insensitive lookup map. */
  function Key(p: Probability): string {
    ToLower(Label(p))
  }

  /** The table lists every level exactly once. */
  lemma LevelsComplete(p: Probability)
    ensures p in Levels
    ensures |Levels| == 11
    ensures forall i, j :: 0 <= i < j < |Levels| ==> Levels[i] != Levels[j]
  {
  }

  /** Odds strictly decrease in declaration order, so `Impossible` (0) is the minimum. */
  lemma ValuesDecreasing()
    ensures forall i, j :: 0 <= i < j < |Levels| ==> Value(Levels[i]) > Value(Levels[j])
    ensures forall p :: Value(Impossible) <= Value(p)
  {
  }

  /** Two levels with the same lower-cased label are the same level: lengths and the
      lower-cased first letters already tell the eleven labels apart. */
  lemma {:induction false} KeysDistinct(p: Probability, q: Probability)
    ensures Key(p) == Key(q) ==> p == q
  {
    if Key(p) == Key(q) {
      assert |Label(p)| == |Key(p)| == |Key(q)| == |Label(q)|;
      assert Key(p)[0] == LowerChar(Label(p)[0]);
      assert Key(q)[0] == LowerChar(Label(q)[0]);
    }
  }

  /** Two positions of `ps` whose levels share a lower-cased label. */
  predicate HasDuplicateKey(ps: seq<Probability>) {
    exists i, j :: 0 <= i < j < |ps| && Key(ps[i]) == Key(ps[j])
  }

  /** The lower-cased labels of the levels in `ps`. */
  function KeysOf(ps: seq<Probability>): set<string> {
    set p | p in ps :: Key(p)
  }

  /** A duplicate key lies either in the tail or between the head and the tail. */
  lemma DuplicateKeyStep(ps: seq<Probability>)
    requires ps != []
    ensures HasDuplicateKey(ps) <==> HasDuplicateKey(ps[1..]) || Key(ps[0]) in KeysOf(ps[1..])
  {
    if HasDuplicateKey(ps[1..]) {
      DuplicateInTail(ps);
    }
    if Key(ps[0]) in KeysOf(ps[1..]) {
      DuplicateWithHead(ps);
    }
    if HasDuplicateKey(ps) {
      DuplicateSplit(ps);
    }
  }

  /** A duplicate inside the tail is a duplicate of the whole sequence. */
  lemma DuplicateInTail(ps: seq<Probability>)
    requires ps != [] && HasDuplicateKey(ps[1..])
    ensures HasDuplicateKey(ps)
  {
    var tail := ps[1..];
    var i, j :| 0 <= i < j < |tail| && Key(tail[i]) == Key(tail[j]);
    assert tail[i] == ps[i + 1] && tail[j] == ps[j + 1];
  }

  /** The head's key reappearing in the tail is a duplicate. */
  lemma DuplicateWithHead(ps: seq<Probability>)
    requires ps != [] && Key(ps[0]) in KeysOf(ps[1..])
    ensures HasDuplicateKey(ps)
  {
    var tail := ps[1..];
    var q :| q in tail && Key(q) == Key(ps[0]);
    var j :| 0 <= j < |tail| && tail[j] == q;
    assert ps[j + 1] == q;
  }

  /** A duplicate either avoids the head or pairs the head with a tail position. */
  lemma DuplicateSplit(ps: seq<Probability>)
    requires ps != [] && HasDuplicateKey(ps)
    ensures HasDuplicateKey(ps[1..]) || Key(ps[0]) in KeysOf(ps[1..])
  {
    var tail := ps[1..];
    var i, j :| 0 <= i < j < |ps| && Key(ps[i]) == Key(ps[j]);
    assert tail[j - 1] == ps[j];
    if i == 0 {
      assert ps[j] in tail;
    } else {
      assert tail[i - 1] == ps[i];
    }
  }

  /**
   * `Collectors.toMap(p -> lower(p.label), p -> p)` over `ps`: it throws (here `None`)
   * exactly when two levels share a key, and otherwise maps every key to its level.
   */
  function LookupMap(ps: seq<Probability>): (r: Option<map<string, Probability>>)
    ensures r.None? <==> HasDuplicateKey(ps)
    ensures r.Some? ==> r.value.Keys == KeysOf(ps)
    ensures r.Some? ==> forall p :: p in ps ==> r.value[Key(p)] == p
  {
    if ps == [] then Some(map[])
    else
      DuplicateKeyStep(ps);
      match LookupMap(ps[1..])
      case None => None
      case Some(m) => if Key(ps[0]) in m then None else Some(m[Key(ps[0]) := ps[0]])
  }

  /** The precomputed `BY_LABEL_LOWER` map (empty only if building it threw, which it does not). */
  function ByLabelLower(): map<string, Probability> {
    match LookupMap(Levels)
    case Some(m) => m
    case None => map[]
  }

  /** Building the lookup map does not throw: lower-cased labels are pairwise distinct. */
  lemma {:induction false} LookupMapBuilds(ps: seq<Probability>)
    requires forall i, j :: 0 <= i < j < |ps| ==> ps[i] != ps[j]
    ensures LookupMap(ps).Some?
  {
    if ps != [] {
      LookupMapBuilds(ps[1..]);
      var m := LookupMap(ps[1..]).value;
      if Key(ps[0]) in m {
        var q :| q in ps[1..] && Key(q) == Key(ps[0]);
        KeysDistinct(q, ps[0]);
      }
    }
  }

  /** The map holds exactly the lower-cased labels, each mapped to its own level. */
  lemma ByLabelLowerExact()
    ensures ByLabelLower().Keys == KeysOf(Levels)
    ensures forall p :: Key(p) in ByLabelLower() && ByLabelLower()[Key(p)] == p
  {
    var levels := Levels;
    LevelsComplete(PieceOfCake);
    LookupMapBuilds(levels);
    var m := LookupMap(levels).value;
    assert ByLabelLower() == m;
    forall p ensures Key(p) in m && m[Key(p)] == p {
      LevelsComplete(p);
    }
  }

  /** `fromLabel`: null gives empty; otherwise trim, lower-case and look up. */
  function FromLabel(name: Option<string>): (r: Option<Probability>)
    ensures r.Some? ==> name.Some? && Key(r.value) == ToLower(Trim(name.value))
  {
    match name
    case None => None
    case Some(s) =>
      var key := ToLower(Trim(s));
      if key in ByLabelLower() then
        ByLabelLowerExact();
        Some(ByLabelLower()[key])
      else None
  }

  /** A label is recognised exactly when its trimmed, lower-cased form is some level's key. */
  lemma FromLabelRecognises(s: string, p: Probability)
    ensures FromLabel(Some(s)) == Some(p) <==> ToLower(Trim(s)) == Key(p)
  {
    ByLabelLowerExact();
  }

  /** Unknown or null labels are not recognised. */
  lemma FromLabelUnknown(name: Option<string>)
    requires name.Some? ==> forall p :: ToLower(Trim(name.value)) != Key(p)
    ensures FromLabel(name) == None
  {
  }

  /** Round trip: every level's own name finds that level. */
  lemma FromLabelOfLabel(p: Probability)
    ensures FromLabel(Some(Label(p))) == Some(p)
  {
    LabelTrimmed(p);
    FromLabelRecognises(Label(p), p);
  }

  /** No label starts or ends with a character `trim` removes. */
  lemma LabelTrimmed(p: Probability)
    ensures Trim(Label(p)) == Label(p)
  {
    var s := Label(p);
    assert !IsTrimmable(s[0]) && !IsTrimmable(s[|s| - 1]);
    TrimOfTrimmed(s);
  }

  /** Lookup ignores surrounding whitespace and ASCII case. */
  lemma FromLabelNormalises(s: string)
    ensures FromLabel(Some(s)) == FromLabel(Some(ToLower(Trim(s))))
  {
    TrimToLower(s);
    ToLowerIdempotent(Trim(s));
  }

  /** `validProbabilities`: the set of the declared labels. */
  function ValidProbabilities(): (r: set<string>)
    ensures forall p :: Label(p) in r
    ensures forall s :: s in r ==> exists p :: Label(p) == s
  {
    set p | p in Levels :: Label(p)
  }

  /** `valueForLabel`: the odds of the recognised level, 0 for anything unrecognised. */
  function ValueForLabel(name: Option<string>): (v: nat)
    ensures v <= 100
    ensures FromLabel(name).Some? ==> v == Value(FromLabel(name).value)
    ensures FromLabel(name).None? ==> v == 0
  {
    match FromLabel(name)
    case Some(p) => Value(p)
    case None => 0
  }
}
