/**
 Topic names and topic filters: splitting, parsing, validity, printing, and what it means for a
 filter to match a name. The meaning is the text of section 4.7 of MQTT 5.0, written over the
 pieces of the two strings and independent of every matching algorithm in the broker.
 */
module Topics {
  import opened Wrappers

  datatype Level = Normal(text: string) | Metadata(text: string) | Blank | SingleWildcard | MultiWildcard

  type Topic = seq<Level>

  datatype TopicError = InvalidTopic | InvalidLevel

  // ---------------------------------------------------------------------------------------------
  // Text
  // ---------------------------------------------------------------------------------------------

  predicate DollarLed(s: string) { s != "" && s[0] == '$' }

  predicate HasWildcard(s: string) { '+' in s || '#' in s }

  function Split(s: string): (parts: seq<string>)
    ensures |parts| >= 1
    ensures forall i :: 0 <= i < |parts| ==> '/' !in parts[i]
  {
    if s == "" then [""]
    else
      var rest := Split(s[1..]);
      if s[0] == '/' then [""] + rest else [[s[0]] + rest[0]] + rest[1..]
  }

  function Join(parts: seq<string>): string
    requires |parts| >= 1
  {
    if |parts| == 1 then parts[0] else parts[0] + "/" + Join(parts[1..])
  }

  lemma {:induction false} JoinSplit(s: string)
    ensures Join(Split(s)) == s
  {
    if s != "" {
      var rest := Split(s[1..]);
      JoinSplit(s[1..]);
      if s[0] == '/' {
        assert Split(s)[1..] == rest;
      } else {
        assert Split(s)[1..] == rest[1..];
        assert [s[0]] + Join(rest) == s;
        if |rest| > 1 {
          assert Join(Split(s)) == ([s[0]] + rest[0]) + "/" + Join(rest[1..]);
        }
      }
    }
  }

  lemma {:induction false} SplitPiece(p: string, s: string)
    requires '/' !in p
    ensures Split(p + "/" + s) == [p] + Split(s)
    decreases |p|
  {
    if p == "" {
      assert p + "/" + s == "/" + s;
      assert ("/" + s)[1..] == s;
    } else {
      SplitPiece(p[1..], s);
      assert (p + "/" + s)[1..] == p[1..] + "/" + s;
      assert [p[0]] + p[1..] == p;
    }
  }

  lemma {:induction false} SplitWhole(p: string)
    requires '/' !in p
    ensures Split(p) == [p]
    decreases |p|
  {
    if p != "" {
      SplitWhole(p[1..]);
      assert [p[0]] + p[1..] == p;
    }
  }

  lemma {:induction false} SplitJoin(parts: seq<string>)
    requires |parts| >= 1 && forall i :: 0 <= i < |parts| ==> '/' !in parts[i]
    ensures Split(Join(parts)) == parts
    decreases |parts|
  {
    if |parts| == 1 {
      SplitWhole(parts[0]);
    } else {
      SplitPiece(parts[0], Join(parts[1..]));
      SplitJoin(parts[1..]);
    }
  }

  // ---------------------------------------------------------------------------------------------
  // Levels and topics
  // ---------------------------------------------------------------------------------------------

  function ParseLevel(s: string): Result<Level, TopicError> {
    if s == "+" then Ok(SingleWildcard)
    else if s == "#" then Ok(MultiWildcard)
    else if s == "" then Ok(Blank)
    else if HasWildcard(s) then Err(InvalidLevel)
    else if DollarLed(s) then Ok(Metadata(s))
    else Ok(Normal(s))
  }

  function PrintLevel(l: Level): string {
    match l
    case Normal(s) => s
    case Metadata(s) => s
    case Blank => ""
    case SingleWildcard => "+"
    case MultiWildcard => "#"
  }

  predicate LevelValid(l: Level) {
    match l
    case Normal(s) => !DollarLed(s) && !HasWildcard(s)
    case Metadata(s) => DollarLed(s) && !HasWildcard(s)
    case _ => true
  }

  /** `#` only at the end, `$...` only at the front. */
  predicate Valid(t: Topic) {
    && (forall i :: 0 <= i < |t| ==> LevelValid(t[i]))
    && (forall i :: 0 <= i < |t| && t[i].MultiWildcard? ==> i == |t| - 1)
    && (forall i :: 0 <= i < |t| && t[i].Metadata? ==> i == 0)
  }

  function ParseLevels(parts: seq<string>): Result<Topic, TopicError> {
    if parts == [] then Ok([])
    else
      match ParseLevel(parts[0])
      case Err(e) => Err(e)
      case Ok(l) =>
        match ParseLevels(parts[1..])
        case Err(e) => Err(e)
        case Ok(t) => Ok([l] + t)
  }

  function Parse(s: string): Result<Topic, TopicError> {
    match ParseLevels(Split(s))
    case Err(e) => Err(e)
    case Ok(t) => if Valid(t) then Ok(t) else Err(InvalidTopic)
  }

  function PrintLevels(t: Topic): (parts: seq<string>)
    ensures |parts| == |t|
    ensures forall i :: 0 <= i < |t| ==> parts[i] == PrintLevel(t[i])
  {
    if t == [] then [] else [PrintLevel(t[0])] + PrintLevels(t[1..])
  }

  function Print(t: Topic): string {
    if t == [] then "" else Join(PrintLevels(t))
  }

  lemma PrintNothing()
    ensures Print([]) == ""
  {
  }

  /** The formatter's loop: levels in order, a separator before all but the first. */
  method Display(t: Topic) returns (s: string)
    ensures s == Print(t)
  {
    hide Print; hide PrintLevel;
    s := "";
    var first := true;
    PrintNothing();
    for i := 0 to |t|
      invariant first <==> i == 0
      invariant s == Print(t[..i])
    {
      PrintAppend(t[..i], t[i]);
      assert t[..i] + [t[i]] == t[..i + 1];
      if first { first := false; } else { s := s + "/"; }
      s := s + PrintLevel(t[i]);
    }
    assert t[..|t|] == t;
  }

  lemma {:induction false} JoinAppend(parts: seq<string>, p: string)
    requires |parts| >= 1
    ensures Join(parts + [p]) == Join(parts) + "/" + p
    decreases |parts|
  {
    if |parts| > 1 {
      JoinAppend(parts[1..], p);
      assert (parts + [p])[1..] == parts[1..] + [p];
    }
  }

  lemma PrintAppend(t: Topic, l: Level)
    ensures Print(t + [l]) == if t == [] then PrintLevel(l) else Print(t) + "/" + PrintLevel(l)
  {
    assert PrintLevels(t + [l]) == PrintLevels(t) + [PrintLevel(l)];
    if t != [] { JoinAppend(PrintLevels(t), PrintLevel(l)); }
  }

  lemma {:induction false} ParseLevelsInverts(parts: seq<string>)
    ensures ParseLevels(parts).Ok? <==> forall i :: 0 <= i < |parts| ==> ParseLevel(parts[i]).Ok?
    ensures ParseLevels(parts).Ok? ==>
      var t := ParseLevels(parts).value;
      && |t| == |parts|
      && (forall i :: 0 <= i < |t| ==> ParseLevel(parts[i]) == Ok(t[i]))
      && PrintLevels(t) == parts
    decreases |parts|
  {
    if parts != [] { ParseLevelsInverts(parts[1..]); }
  }

  /** Printing a parsed filter gives back its text, so parsing is injective. */
  lemma PrintParse(s: string)
    requires Parse(s).Ok?
    ensures Print(Parse(s).value) == s
    ensures Parse(s).value != [] && Valid(Parse(s).value)
  {
    ParseLevelsInverts(Split(s));
    JoinSplit(s);
  }

  /** Section 4.7.1: a wildcard stands alone in its piece, and `#` is last. */
  predicate FilterRules(parts: seq<string>) {
    forall i :: 0 <= i < |parts| && ('+' in parts[i] || '#' in parts[i]) ==>
      parts[i] == "+" || (parts[i] == "#" && i == |parts| - 1)
  }

  /** Exactly what the parser accepts: the rules of section 4.7.1, and `$` only at the front. */
  lemma ParseAccepts(s: string)
    ensures Parse(s).Ok? <==> FilterRules(Split(s)) && NoInnerDollar(Split(s))
  {
    hide Split; hide PrintLevels; hide PrintLevel; hide ParseLevels;
    var parts := Split(s);
    ParseLevelsInverts(parts);
    forall i | 0 <= i < |parts|
      ensures ParseLevel(parts[i]).Ok? <==> !HasWildcard(parts[i]) || parts[i] == "+" || parts[i] == "#"
      ensures ParseLevel(parts[i]).Ok? ==> LevelValid(ParseLevel(parts[i]).value)
      ensures parts[i] == "#" ==> HasWildcard(parts[i])
    {
      ParseLevelFacts(parts[i]);
      assert parts[i] == "#" ==> parts[i][0] == '#';
      assert parts[i] == "+" ==> parts[i][0] == '+';
    }
    if ParseLevels(parts).Ok? {
      var t := ParseLevels(parts).value;
      forall i | 0 <= i < |t|
        ensures LevelValid(t[i]) && (t[i].MultiWildcard? <==> parts[i] == "#") &&
          (t[i].Metadata? <==> DollarLed(parts[i]))
      {
        ParseLevelFacts(parts[i]);
      }
    }
  }

  /** `a/$b` keeps section 4.7 and is refused: a publish under it gets an error. */
  lemma RefusedExample()
    ensures FilterRules(Split("a/$b")) && Parse("a/$b").Err?
  {
    assert "a/$b" == "a" + "/" + "$b";
    SplitPiece("a", "$b");
    SplitWhole("$b");
    assert Split("a/$b") == ["a", "$b"];
    assert DollarLed(["a", "$b"][1]);
    ParseAccepts("a/$b");
  }

  /** Levels the parser can produce. */
  predicate Proper(t: Topic) {
    t != [] && Valid(t) &&
    forall i :: 0 <= i < |t| && (t[i].Normal? || t[i].Metadata?) ==> t[i].text != "" && '/' !in t[i].text
  }

  lemma ParsePrintLevel(l: Level)
    requires LevelValid(l) && (l.Normal? || l.Metadata? ==> l.text != "" && '/' !in l.text)
    ensures ParseLevel(PrintLevel(l)) == Ok(l) && '/' !in PrintLevel(l)
  {
  }

  /** Parsing the printed form of any such topic gives it back. */
  lemma ParsePrint(t: Topic)
    requires Proper(t)
    ensures Parse(Print(t)) == Ok(t)
  {
    hide PrintLevel; hide ParseLevel; hide ParseLevels; hide LevelValid; hide Split; hide Join; hide PrintLevels;
    var parts := PrintLevels(t);
    forall i | 0 <= i < |t| ensures ParseLevel(parts[i]) == Ok(t[i]) && '/' !in parts[i] { ParsePrintLevel(t[i]); }
    SplitJoin(parts);
    ParseLevelsInverts(parts);
    assert ParseLevels(parts).value == t;
  }

  // ---------------------------------------------------------------------------------------------
  // Section 4.7: what a filter matches
  // ---------------------------------------------------------------------------------------------

  predicate PieceMatches(f: string, t: string) { f == "+" || f == t }

  /**
   The text of section 4.7 over `/`-separated pieces: `+` stands for one piece, a final `#` for
   the parent and any number of further pieces, and a leading wildcard never meets a name that
   begins with `$`.
   */
  predicate SpecMatches(f: seq<string>, t: seq<string>)
    requires |f| >= 1 && |t| >= 1
  {
    && !(t[0] != "" && t[0][0] == '$' && (f[0] == "+" || f[0] == "#"))
    && (var n := |f| - 1;
        if f[n] == "#" then |t| >= n && forall i :: 0 <= i < n ==> PieceMatches(f[i], t[i])
        else |t| == |f| && forall i :: 0 <= i < |f| ==> PieceMatches(f[i], t[i]))
  }

  predicate LevelMatches(f: Level, t: Level) { f.SingleWildcard? || f == t }

  /** The same relation over parsed levels. */
  predicate Matches(f: Topic, t: Topic) {
    && !(f != [] && t != [] && t[0].Metadata? && (f[0].SingleWildcard? || f[0].MultiWildcard?))
    && LevelsMatch(f, t)
  }

  predicate LevelsMatch(f: Topic, t: Topic) {
    if f != [] && f[|f| - 1].MultiWildcard? then
      |t| >= |f| - 1 && forall i :: 0 <= i < |f| - 1 ==> LevelMatches(f[i], t[i])
    else
      |t| == |f| && forall i :: 0 <= i < |f| ==> LevelMatches(f[i], t[i])
  }

  predicate WildcardFree(t: Topic) {
    forall i :: 0 <= i < |t| ==> !t[i].SingleWildcard? && !t[i].MultiWildcard?
  }

  lemma ParseLevelFacts(s: string)
    ensures ParseLevel(s).Ok? ==>
      var l := ParseLevel(s).value;
      PrintLevel(l) == s && (l.SingleWildcard? <==> s == "+") &&
      (l.MultiWildcard? <==> s == "#") && (l.Metadata? <==> DollarLed(s))
  {
  }

  lemma PieceAgrees(f: string, t: string)
    requires ParseLevel(f).Ok? && ParseLevel(t).Ok?
    ensures LevelMatches(ParseLevel(f).value, ParseLevel(t).value) <==> PieceMatches(f, t)
  {
    hide ParseLevel; hide PrintLevel;
    ParseLevelFacts(f);
    ParseLevelFacts(t);
  }

  /** On parsable text the two relations are the same. */
  lemma SpecOnText(filter: string, name: string)
    requires Parse(filter).Ok? && Parse(name).Ok?
    ensures Matches(Parse(filter).value, Parse(name).value) <==> SpecMatches(Split(filter), Split(name))
  {
    hide ParseLevel; hide ParseLevels; hide Split; hide PrintLevel; hide PrintLevels; hide Valid;
    hide LevelMatches; hide PieceMatches;
    var f, t, fs, ts := Parse(filter).value, Parse(name).value, Split(filter), Split(name);
    ParseLevelsInverts(fs);
    ParseLevelsInverts(ts);
    forall i | 0 <= i < |fs|
      ensures (f[i].SingleWildcard? <==> fs[i] == "+") && (f[i].MultiWildcard? <==> fs[i] == "#")
    {
      ParseLevelFacts(fs[i]);
    }
    ParseLevelFacts(ts[0]);
    forall i | 0 <= i < |fs| && i < |ts|
      ensures LevelMatches(f[i], t[i]) <==> PieceMatches(fs[i], ts[i])
    {
      PieceAgrees(fs[i], ts[i]);
    }
  }

  /** One level of recursion of the relation, the form both tries follow. */
  lemma LevelsMatchStep(f: Topic, t: Topic)
    ensures f == [] ==> (LevelsMatch(f, t) <==> t == [])
    ensures f != [] && f[0].MultiWildcard? && |f| == 1 ==> LevelsMatch(f, t)
    ensures f != [] && t == [] && !(f == [MultiWildcard]) ==> !LevelsMatch(f, t)
    ensures f != [] && t != [] && f != [MultiWildcard] ==>
      (LevelsMatch(f, t) <==> LevelMatches(f[0], t[0]) && LevelsMatch(f[1..], t[1..]))
  {
    if f != [] && t != [] && f != [MultiWildcard] {
      var f', t' := f[1..], t[1..];
      if f' != [] { assert f'[|f'| - 1] == f[|f| - 1]; }
      if LevelsMatch(f, t) {
        assert forall i :: 0 <= i < |f'| && i < |t'| ==> f'[i] == f[i + 1] && t'[i] == t[i + 1];
      }
      if LevelMatches(f[0], t[0]) && LevelsMatch(f', t') {
        var n := if f[|f| - 1].MultiWildcard? then |f| - 1 else |f|;
        forall i | 0 <= i < n ensures LevelMatches(f[i], t[i]) {
          if i > 0 { assert LevelMatches(f'[i - 1], t'[i - 1]); }
        }
      }
    }
  }

  // ---------------------------------------------------------------------------------------------
  // The direct matcher used by access control
  // ---------------------------------------------------------------------------------------------

  predicate MatchPiece(s: string, l: Level) {
    match l
    case Normal(x) => !DollarLed(s) && x == s
    case Metadata(x) => DollarLed(s) && x == s
    case Blank => s == ""
    case _ => !DollarLed(s)
  }

  /** `$` appears only at the front, as in every name the parser accepts. */
  predicate NoInnerDollar(t: seq<string>) {
    forall i :: 1 <= i < |t| && t[i] != "" ==> t[i][0] != '$'
  }

  /**
   The filters for which a leading `+` does match a `$` name: `+` and `+/#`. The loop leaves on the
   mismatch and then only looks at what follows in the filter.
   */
  predicate LeaksDollar(f: Topic, t: seq<string>)
    requires |t| >= 1
  {
    DollarLed(t[0]) && f != [] && f[0].SingleWildcard? && (|f| == 1 || f[1].MultiWildcard?)
  }

  lemma PieceFacts(l: Level)
    requires LevelValid(l)
    ensures (PrintLevel(l) == "+" <==> l.SingleWildcard?) && (PrintLevel(l) == "#" <==> l.MultiWildcard?)
    ensures forall s: string :: !l.SingleWildcard? && !l.MultiWildcard? && MatchPiece(s, l) ==> PrintLevel(l) == s
    ensures forall s: string :: !l.SingleWildcard? && !l.MultiWildcard? && PrintLevel(l) == s ==>
      MatchPiece(s, l) || l == Normal("")
  {
    if l.Normal? { assert forall s: string :: s == "+" ==> s[0] == '+';
      assert forall s: string :: s == "#" ==> s[0] == '#'; }
    if l.Metadata? { assert forall s: string :: s == "+" ==> s[0] == '+';
      assert forall s: string :: s == "#" ==> s[0] == '#'; }
  }

  /** The loop meets a wildcard and a `$` piece at position `k`, everything before having matched. */
  predicate StopsAt(f: Topic, t: seq<string>, k: nat) {
    && k < |f| && k < |t| && DollarLed(t[k]) && (f[k].SingleWildcard? || f[k].MultiWildcard?)
    && forall i :: 0 <= i < k ==>
         PieceMatches(PrintLevel(f[i]), t[i]) && !f[i].MultiWildcard? && !(f[i].SingleWildcard? && DollarLed(t[i]))
  }

  /** After such a stop the rest of the name is ignored: only what follows in the filter counts. */
  predicate AfterStop(f: Topic, k: nat)
    requires k < |f|
  {
    f[k].SingleWildcard? && (k + 1 == |f| || f[k + 1].MultiWildcard?)
  }

  /**
   For every name: the section 4.7 relation, unless a wildcard meets a `$` piece. On names with `$`
   only at the front this means that `+` and `+/#` match every `$` name and nothing else differs.
   */
  method MatchesStr(f: Topic, name: string) returns (r: bool)
    requires Proper(f)
    ensures forall k: nat :: StopsAt(f, Split(name), k) ==> (r <==> AfterStop(f, k))
    ensures (forall k: nat :: !StopsAt(f, Split(name), k)) ==> (r <==> SpecMatches(PrintLevels(f), Split(name)))
    ensures NoInnerDollar(Split(name)) ==>
      (r <==> SpecMatches(PrintLevels(f), Split(name)) || LeaksDollar(f, Split(name)))
  {
    var t := Split(name);
    ghost var fs := PrintLevels(f);
    hide Split; hide PrintLevels; hide PrintLevel; hide SpecMatches;
    forall i | 0 <= i < |f|
      ensures fs[i] == "+" <==> f[i].SingleWildcard?
      ensures fs[i] == "#" <==> f[i].MultiWildcard?
    { PieceFacts(f[i]); }
    if NoInnerDollar(t) { FrontStop(f, t); }
    var k := 0;
    while k < |t|
      invariant 0 <= k <= |t| && k <= |f|
      invariant forall i :: 0 <= i < k ==>
        PieceMatches(fs[i], t[i]) && !f[i].MultiWildcard? && !(f[i].SingleWildcard? && DollarLed(t[i]))
    {
      NoOtherStop(f, t, k);
      if k == |f| { SpecAt(f, t, k); return false; }
      if f[k].SingleWildcard? {
        if !MatchPiece(t[k], SingleWildcard) {
          assert StopsAt(f, t, k);
          k := k + 1;
          return k == |f| || f[k].MultiWildcard?;
        }
      } else if f[k].MultiWildcard? {
        SpecAt(f, t, k);
        assert DollarLed(t[k]) ==> StopsAt(f, t, k);
        return MatchPiece(t[k], MultiWildcard);
      } else if !MatchPiece(t[k], f[k]) {
        PieceFacts(f[k]);
        SpecAt(f, t, k);
        return false;
      } else {
        PieceFacts(f[k]);
      }
      k := k + 1;
    }
    NoOtherStop(f, t, k);
    SpecAt(f, t, k);
    return k == |f| || f[k].MultiWildcard?;
  }

  /** Pieces that matched rule out a stop among them, and one stop rules out any other. */
  lemma NoOtherStop(f: Topic, t: seq<string>, k: nat)
    requires k <= |f| && k <= |t|
    requires forall i :: 0 <= i < k ==> !f[i].MultiWildcard? && !(f[i].SingleWildcard? && DollarLed(t[i]))
    ensures forall j: nat :: StopsAt(f, t, j) ==> j >= k
    ensures StopsAt(f, t, k) ==> forall j: nat :: StopsAt(f, t, j) ==> j == k
    ensures k < |f| && k < |t| && (f[k].MultiWildcard? || !PieceMatches(PrintLevel(f[k]), t[k])) ==>
      forall j: nat :: StopsAt(f, t, j) ==> j == k
    ensures k == |f| || k == |t| ==> forall j: nat :: !StopsAt(f, t, j)
  {
    forall j: nat | StopsAt(f, t, j) ensures j >= k && (j > k ==>
      !StopsAt(f, t, k) && !f[k].MultiWildcard? && PieceMatches(PrintLevel(f[k]), t[k]))
    {
    }
  }

  /** What the relation says once the first `k` pieces are known to match. */
  lemma SpecAt(f: Topic, t: seq<string>, k: nat)
    requires Proper(f) && |t| >= 1 && k <= |f| && k <= |t|
    requires forall i :: 0 <= i < k ==>
      PieceMatches(PrintLevel(f[i]), t[i]) && !f[i].MultiWildcard? && !(f[i].SingleWildcard? && DollarLed(t[i]))
    ensures k == |f| ==> (SpecMatches(PrintLevels(f), t) <==> k == |t|)
    ensures k < |f| && f[k].MultiWildcard? && !(k == 0 && DollarLed(t[0])) ==> SpecMatches(PrintLevels(f), t)
    ensures k < |f| && k == |t| && !f[k].MultiWildcard? ==> !SpecMatches(PrintLevels(f), t)
    ensures k < |f| && k < |t| && !f[k].MultiWildcard? && !PieceMatches(PrintLevel(f[k]), t[k]) ==>
      !SpecMatches(PrintLevels(f), t)
  {
    hide PrintLevels; hide PrintLevel;
    var fs := PrintLevels(f);
    forall i | 0 <= i < |f|
      ensures fs[i] == "+" <==> f[i].SingleWildcard?
      ensures fs[i] == "#" <==> f[i].MultiWildcard?
    { PieceFacts(f[i]); }
  }

  /** With `$` only at the front, the only stop is there, and it differs from the relation by the leak. */
  lemma FrontStop(f: Topic, t: seq<string>)
    requires Proper(f) && |t| >= 1 && NoInnerDollar(t)
    ensures forall k: nat :: StopsAt(f, t, k) ==> k == 0
    ensures StopsAt(f, t, 0) ==> !SpecMatches(PrintLevels(f), t) && (AfterStop(f, 0) <==> LeaksDollar(f, t))
    ensures !StopsAt(f, t, 0) ==> !LeaksDollar(f, t)
  {
    PieceFacts(f[0]);
  }

  /** The isolation of `$` names fails on a concrete pair: `+` against `$SYS`. */
  lemma LeakExample()
    ensures Parse("+").Ok? && Parse("$SYS").Ok?
    ensures !SpecMatches(Split("+"), Split("$SYS")) && LeaksDollar(Parse("+").value, Split("$SYS"))
  {
    hide Split; hide ParseLevels; hide PrintLevels;
    SplitWhole("+");
    SplitWhole("$SYS");
    ParseLevelsInverts(["+"]);
    ParseLevelsInverts(["$SYS"]);
    ParseAccepts("+");
    ParseAccepts("$SYS");
    assert ParseLevel("+") == Ok(SingleWildcard);
    assert "$SYS"[0] == '$';
  }
}
