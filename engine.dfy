/**
 * The quiz rules both shells implement the same way: which words may be asked
 * next, the rejection-sampling loop that draws three wrong answers, the in-place
 * shuffle of the four options, and the scoring of an answer.
 *
 * The random module is not modelled. Its results enter as a `Dice` value: the
 * index `random.choice` returns on the eligible words, the indices it returns on
 * the whole lesson inside the wrong-answer loop, and the swap positions that
 * `random.shuffle` draws.
 */
module Engine {
  import opened Catalog

  // ---------------------------------------------------------------- selection

  /** The entries whose gloss has not been asked yet, in lesson order
      (the filter both shells apply before choosing a word). */
  function Unasked(contenido: seq<Palabra>, asked: set<string>): (r: seq<Palabra>)
    ensures forall p :: p in r <==> p in contenido && p.espanol !in asked
    ensures |r| <= |contenido|
  {
    if contenido == [] then []
    else (if contenido[0].espanol in asked then [] else [contenido[0]]) + Unasked(contenido[1..], asked)
  }

  /** Every gloss of the lesson has been asked. */
  predicate AllAsked(contenido: seq<Palabra>, asked: set<string>)
  {
    Glosses(contenido) <= asked
  }

  lemma UnaskedEmpty(contenido: seq<Palabra>, asked: set<string>)
    ensures Unasked(contenido, asked) == [] <==> AllAsked(contenido, asked)
  {
    var u := Unasked(contenido, asked);
    if u != [] {
      assert u[0] in u;
    }
  }

  /** The words the next question is chosen from: the unasked ones, or the whole
      lesson once every gloss has been asked. */
  function Eligible(contenido: seq<Palabra>, asked: set<string>): (r: seq<Palabra>)
    ensures forall p :: p in r ==> p in contenido
    ensures AllAsked(contenido, asked) ==> r == contenido
    ensures !AllAsked(contenido, asked) ==> r != [] && forall p :: p in r ==> p.espanol !in asked
    ensures !AllAsked(contenido, asked) ==> forall p :: p in contenido && p.espanol !in asked ==> p in r
  {
    UnaskedEmpty(contenido, asked);
    var u := Unasked(contenido, asked);
    if u == [] then contenido else u
  }

  // ---------------------------------------------------- wrong-answer sampling

  /** Every sample is an index into a list of length n. */
  predicate InRange(samples: seq<nat>, n: nat)
  {
    forall i :: 0 <= i < |samples| ==> samples[i] < n
  }

  /** No string occurs twice. */
  predicate Distinct(s: seq<string>)
  {
    forall i, j :: 0 <= i < j < |s| ==> s[i] != s[j]
  }

  /** A valid list of wrong answers: pairwise distinct terms of the lesson,
      none of them the correct one. */
  predicate Distractors(contenido: seq<Palabra>, correcta: string, d: seq<string>)
  {
    && Distinct(d)
    && (forall i :: 0 <= i < |d| ==> d[i] != correcta && d[i] in Mayas(contenido))
  }

  /** What the wrong-answer loop has collected once it has consumed the given
      samples, starting from `acc`: while fewer than three are collected, the
      sampled entry's term is kept unless it is the correct term or already kept. */
  function Sample(contenido: seq<Palabra>, correcta: string, acc: seq<string>, samples: seq<nat>): seq<string>
    requires InRange(samples, |contenido|)
    decreases |samples|
  {
    if |acc| >= 3 || samples == [] then acc
    else
      var m := contenido[samples[0]].maya;
      Sample(contenido, correcta, if m != correcta && m !in acc then acc + [m] else acc, samples[1..])
  }

  /** The sample stream is long enough for the wrong-answer loop to finish. */
  predicate Completes(contenido: seq<Palabra>, correcta: string, samples: seq<nat>)
  {
    InRange(samples, |contenido|) && |Sample(contenido, correcta, [], samples)| == 3
  }

  /** Sampling only ever extends a valid list with valid entries, up to three. */
  lemma {:induction false} SampleKeepsDistractors(contenido: seq<Palabra>, correcta: string, acc: seq<string>, samples: seq<nat>)
    requires InRange(samples, |contenido|)
    requires Distractors(contenido, correcta, acc) && |acc| <= 3
    ensures var r := Sample(contenido, correcta, acc, samples);
      Distractors(contenido, correcta, r) && |acc| <= |r| <= 3 && r[..|acc|] == acc
    decreases |samples|
  {
    if |acc| < 3 && samples != [] {
      var m := contenido[samples[0]].maya;
      assert m in Mayas(contenido) by {
        assert contenido[samples[0]] in contenido;
      }
      var next := if m != correcta && m !in acc then acc + [m] else acc;
      assert InRange(samples[1..], |contenido|) by {
        forall i | 0 <= i < |samples[1..]| ensures samples[1..][i] < |contenido| {
          assert samples[1..][i] == samples[i + 1];
        }
      }
      SampleKeepsDistractors(contenido, correcta, next, samples[1..]);
      var r := Sample(contenido, correcta, next, samples[1..]);
      assert r[..|acc|] == r[..|next|][..|acc|];
    }
  }

  /** Three distinct elements of a set make it hold at least three. */
  lemma ThreeDistinctIn(s: set<string>, a: string, b: string, c: string)
    requires a in s && b in s && c in s && a != b && a != c && b != c
    ensures |s| >= 3
  {
    assert |s - {a}| == |s| - 1;
    assert |s - {a} - {b}| == |s| - 2;
    assert c in s - {a} - {b};
  }

  /** The wrong-answer loop can only finish when the lesson has at least three
      terms other than the correct one. */
  lemma CompletesNeedsThreeOthers(contenido: seq<Palabra>, correcta: string, samples: seq<nat>)
    requires Completes(contenido, correcta, samples)
    ensures |Mayas(contenido) - {correcta}| >= 3
  {
    SampleKeepsDistractors(contenido, correcta, [], samples);
    var r := Sample(contenido, correcta, [], samples);
    assert r[0] != r[1] && r[0] != r[2] && r[1] != r[2];
    ThreeDistinctIn(Mayas(contenido) - {correcta}, r[0], r[1], r[2]);
  }

  /** Conversely, with at least three other terms some sample stream lets the
      loop finish: drawing one entry for each of three such terms. */
  lemma ThreeOthersCanComplete(contenido: seq<Palabra>, correcta: string)
    requires |Mayas(contenido) - {correcta}| >= 3
    ensures exists samples :: Completes(contenido, correcta, samples)
  {
    var a, b, c := PickThree(Mayas(contenido) - {correcta});
    var i := EntryOf(contenido, a);
    var j := EntryOf(contenido, b);
    var k := EntryOf(contenido, c);
    SampleThree(contenido, correcta, i, j, k);
    assert Completes(contenido, correcta, [i, j, k]);
  }

  /** Three distinct elements of a set of at least three. */
  lemma PickThree(s: set<string>) returns (a: string, b: string, c: string)
    requires |s| >= 3
    ensures a in s && b in s && c in s && a != b && a != c && b != c
  {
    a :| a in s;
    assert |s - {a}| == |s| - 1;
    b :| b in s - {a};
    assert |s - {a} - {b}| == |s| - 2;
    c :| c in s - {a} - {b};
  }

  /** The position of an entry with the given term. */
  lemma EntryOf(contenido: seq<Palabra>, m: string) returns (i: nat)
    requires m in Mayas(contenido)
    ensures i < |contenido| && contenido[i].maya == m
  {
    var p :| p in contenido && p.maya == m;
    var n :| 0 <= n < |contenido| && contenido[n] == p;
    i := n;
  }

  /** Drawing three entries with distinct terms other than the correct one
      collects exactly those terms. */
  lemma SampleThree(contenido: seq<Palabra>, correcta: string, i: nat, j: nat, k: nat)
    requires i < |contenido| && j < |contenido| && k < |contenido|
    requires var a, b, c := contenido[i].maya, contenido[j].maya, contenido[k].maya;
      a != correcta && b != correcta && c != correcta && a != b && a != c && b != c
    ensures InRange([i, j, k], |contenido|)
    ensures Sample(contenido, correcta, [], [i, j, k]) == [contenido[i].maya, contenido[j].maya, contenido[k].maya]
  {
    var a, b, c := contenido[i].maya, contenido[j].maya, contenido[k].maya;
    assert Sample(contenido, correcta, [a, b, c], []) == [a, b, c];
    assert Sample(contenido, correcta, [a, b], [k]) == [a, b, c] by {
      assert c !in [a, b] && [a, b] + [c] == [a, b, c];
    }
    assert Sample(contenido, correcta, [a], [j, k]) == Sample(contenido, correcta, [a, b], [k]) by {
      assert [j, k][1..] == [k];
      assert b !in [a] && [a] + [b] == [a, b];
    }
    assert Sample(contenido, correcta, [], [i, j, k]) == Sample(contenido, correcta, [a], [j, k]) by {
      assert [i, j, k][1..] == [j, k];
      assert a !in [] && [] + [a] == [a];
    }
  }

  /** The wrong-answer loop: draw an entry, keep its term if it is neither the
      correct term nor already kept, until three are kept. */
  method PickDistractors(contenido: seq<Palabra>, correcta: string, samples: seq<nat>) returns (incorrectas: seq<string>)
    requires Completes(contenido, correcta, samples)
    ensures |incorrectas| == 3
    ensures Distractors(contenido, correcta, incorrectas)
    ensures incorrectas == Sample(contenido, correcta, [], samples)
  {
    incorrectas := [];
    var k := 0;
    while |incorrectas| < 3
      invariant 0 <= k <= |samples|
      invariant Distractors(contenido, correcta, incorrectas) && |incorrectas| <= 3
      invariant Sample(contenido, correcta, incorrectas, samples[k..]) == Sample(contenido, correcta, [], samples)
      decreases |samples| - k
    {
      assert k < |samples|;
      var opcion := contenido[samples[k]];
      assert opcion in contenido;
      assert samples[k..][1..] == samples[k + 1..];
      if opcion.maya != correcta && opcion.maya !in incorrectas {
        incorrectas := incorrectas + [opcion.maya];
      }
      k := k + 1;
    }
    SampleKeepsDistractors(contenido, correcta, [], samples);
  }

  // ------------------------------------------------------------------ shuffle

  /** Swap choices for shuffling n items the way random.shuffle does: for
      i = n-1 down to 1, a position j with 0 <= j <= i. */
  predicate ValidSwaps(n: nat, swaps: seq<nat>)
  {
    && |swaps| == (if n == 0 then 0 else n - 1)
    && forall t :: 0 <= t < |swaps| ==> swaps[t] <= n - 1 - t
  }

  /** The list after exchanging positions i and j. */
  function Swap(s: seq<string>, i: nat, j: nat): seq<string>
    requires i < |s| && j < |s|
  {
    s[i := s[j]][j := s[i]]
  }

  /** The list after the shuffle steps for positions i, i-1, ..., 1. */
  function ShuffleFrom(s: seq<string>, swaps: seq<nat>, i: nat): (r: seq<string>)
    requires ValidSwaps(|s|, swaps) && (i < |s| || i == 0)
    ensures |r| == |s|
    decreases i
  {
    if i == 0 then s
    else ShuffleFrom(Swap(s, i, swaps[|s| - 1 - i]), swaps, i - 1)
  }

  /** The whole shuffle of a list. */
  function Shuffled(s: seq<string>, swaps: seq<nat>): seq<string>
    requires ValidSwaps(|s|, swaps)
  {
    ShuffleFrom(s, swaps, if |s| == 0 then 0 else |s| - 1)
  }

  /** Shuffling only reorders: the result is a permutation of the input. */
  lemma {:induction false} ShufflePermutes(s: seq<string>, swaps: seq<nat>, i: nat)
    requires ValidSwaps(|s|, swaps) && (i < |s| || i == 0)
    ensures multiset(ShuffleFrom(s, swaps, i)) == multiset(s)
    decreases i
  {
    if i > 0 {
      var j := swaps[|s| - 1 - i];
      var t := Swap(s, i, j);
      SwapPermutes(s, i, j);
      ShufflePermutes(t, swaps, i - 1);
    }
  }

  /** random.shuffle: the swap loop run in place on the option array. */
  method Shuffle(a: array<string>, swaps: seq<nat>)
    requires ValidSwaps(a.Length, swaps)
    modifies a
    ensures a[..] == Shuffled(old(a[..]), swaps)
    ensures multiset(a[..]) == multiset(old(a[..]))
  {
    ghost var start := a[..];
    var i: nat := if a.Length == 0 then 0 else a.Length - 1;
    while i > 0
      invariant i < a.Length || i == 0
      invariant ShuffleFrom(a[..], swaps, i) == Shuffled(start, swaps)
      decreases i
    {
      var j := swaps[a.Length - 1 - i];
      assert j <= i;
      ghost var before := a[..];
      assert ShuffleFrom(before, swaps, i) == ShuffleFrom(Swap(before, i, j), swaps, i - 1);
      a[i], a[j] := a[j], a[i];
      assert a[..] == Swap(before, i, j);
      i := i - 1;
    }
    ShufflePermutes(start, swaps, if a.Length == 0 then 0 else a.Length - 1);
  }

  lemma SwapPermutes(s: seq<string>, i: nat, j: nat)
    requires i < |s| && j < |s|
    ensures multiset(Swap(s, i, j)) == multiset(s)
  {
    if i != j {
      assert multiset(s[i := s[j]]) == multiset(s) - multiset{s[i]} + multiset{s[j]};
    }
  }

  // ------------------------------------------------------------------ options

  /** The number of options a question shows: the correct term and three wrong
      answers. */
  const Opciones: nat := 4

  /** Builds the wrong answers for `correcta` and shuffles them together with it. */
  method BuildOptions(contenido: seq<Palabra>, correcta: string, samples: seq<nat>, swaps: seq<nat>)
    returns (opciones: seq<string>)
    requires Completes(contenido, correcta, samples)
    requires ValidSwaps(Opciones, swaps)
    ensures |opciones| == 4
    ensures multiset(opciones) == multiset([correcta] + Sample(contenido, correcta, [], samples))
    ensures multiset(opciones)[correcta] == 1
    ensures Distinct(opciones)
    ensures forall i :: 0 <= i < |opciones| && opciones[i] != correcta ==> opciones[i] in Mayas(contenido)
    ensures opciones == Shuffled([correcta] + Sample(contenido, correcta, [], samples), swaps)
  {
    var incorrectas := PickDistractors(contenido, correcta, samples);
    var base := [correcta] + incorrectas;
    var a := new string[4](i requires 0 <= i < 4 => base[i]);
    assert a[..] == base;
    Shuffle(a, swaps);
    opciones := a[..];
    OptionsFacts(contenido, correcta, incorrectas, swaps);
  }

  lemma OptionsFacts(contenido: seq<Palabra>, correcta: string, incorrectas: seq<string>, swaps: seq<nat>)
    requires |incorrectas| == 3 && Distractors(contenido, correcta, incorrectas)
    requires ValidSwaps(Opciones, swaps)
    ensures var opciones := Shuffled([correcta] + incorrectas, swaps);
      && multiset(opciones)[correcta] == 1
      && Distinct(opciones)
      && forall i :: 0 <= i < |opciones| && opciones[i] != correcta ==> opciones[i] in Mayas(contenido)
  {
    var base := [correcta] + incorrectas;
    var opciones := Shuffled(base, swaps);
    ShufflePermutes(base, swaps, 3);
    assert multiset(incorrectas)[correcta] == 0;
    assert multiset(base) == multiset{correcta} + multiset(incorrectas);
    assert Distinct(base);
    ShuffleKeepsDistinct(base, swaps, 3);
    forall i | 0 <= i < |opciones| && opciones[i] != correcta
      ensures opciones[i] in Mayas(contenido)
    {
      assert opciones[i] in multiset(base);
    }
  }

  lemma SwapKeepsDistinct(s: seq<string>, i: nat, j: nat)
    requires i < |s| && j < |s| && Distinct(s)
    ensures Distinct(Swap(s, i, j))
  {
  }

  /** Shuffling a list without repeats gives a list without repeats. */
  lemma {:induction false} ShuffleKeepsDistinct(s: seq<string>, swaps: seq<nat>, i: nat)
    requires ValidSwaps(|s|, swaps) && (i < |s| || i == 0) && Distinct(s)
    ensures Distinct(ShuffleFrom(s, swaps, i))
    decreases i
  {
    if i > 0 {
      var j := swaps[|s| - 1 - i];
      SwapKeepsDistinct(s, i, j);
      ShuffleKeepsDistinct(Swap(s, i, j), swaps, i - 1);
    }
  }

  // ------------------------------------------------------------ one question

  /** The random numbers one question-generating pass consumes: the index of the
      chosen word among the eligible ones, the stream of indices the wrong-answer
      loop draws from the whole lesson, and the swap choices of the shuffle. */
  datatype Dice = Dice(choice: nat, samples: seq<nat>, swaps: seq<nat>)

  /** The random numbers are in range and let the wrong-answer loop finish. */
  predicate Fits(d: Dice, contenido: seq<Palabra>, asked: set<string>)
  {
    var e := Eligible(contenido, asked);
    d.choice < |e| && Completes(contenido, e[d.choice].maya, d.samples) && ValidSwaps(Opciones, d.swaps)
  }

  /** A posed question: the word whose gloss is shown and the four options. */
  datatype Question = Question(palabra: Palabra, opciones: seq<string>)

  /** Four options for the correct term `correcta`: no repeats, the correct term
      exactly once, and every other option a term of the lesson. */
  predicate GoodOptions(contenido: seq<Palabra>, correcta: string, opciones: seq<string>)
  {
    && |opciones| == 4
    && Distinct(opciones)
    && multiset(opciones)[correcta] == 1
    && forall i :: 0 <= i < |opciones| && opciones[i] != correcta ==> opciones[i] in Mayas(contenido)
  }

  /** The question one pass poses on a lesson with the given asked glosses: the
      chosen eligible word, and as options its term and the wrong answers the
      sample stream selects, shuffled by the swap choices. */
  predicate Poses(contenido: seq<Palabra>, asked: set<string>, d: Dice, q: Question)
    requires Fits(d, contenido, asked)
  {
    var w := Eligible(contenido, asked)[d.choice];
    && q.palabra == w
    && GoodOptions(contenido, w.maya, q.opciones)
    && q.opciones == Shuffled([w.maya] + Sample(contenido, w.maya, [], d.samples), d.swaps)
  }

  /** A lesson holds at most as many terms as entries. */
  lemma {:induction false} MayasBound(contenido: seq<Palabra>)
    ensures |Mayas(contenido)| <= |contenido|
  {
    if contenido != [] {
      MayasBound(contenido[1..]);
      MayasCons(contenido);
    }
  }

  /** Some random numbers can pose the next question exactly when the lesson
      has at least four distinct terms, whatever has been asked so far. */
  lemma CanPoseIff(contenido: seq<Palabra>, asked: set<string>)
    ensures (exists d :: Fits(d, contenido, asked)) <==> |Mayas(contenido)| >= 4
  {
    if d :| Fits(d, contenido, asked) {
      PoseNeedsFourTerms(contenido, asked, d);
    }
    if |Mayas(contenido)| >= 4 {
      FourTermsCanPose(contenido, asked);
    }
  }

  lemma PoseNeedsFourTerms(contenido: seq<Palabra>, asked: set<string>, d: Dice)
    requires Fits(d, contenido, asked)
    ensures |Mayas(contenido)| >= 4
  {
    var w := Eligible(contenido, asked)[d.choice];
    assert w in contenido;
    CompletesNeedsThreeOthers(contenido, w.maya, d.samples);
    assert Mayas(contenido) == (Mayas(contenido) - {w.maya}) + {w.maya};
  }

  lemma FourTermsCanPose(contenido: seq<Palabra>, asked: set<string>)
    requires |Mayas(contenido)| >= 4
    ensures exists d :: Fits(d, contenido, asked)
  {
    MayasBound(contenido);
    var e := Eligible(contenido, asked);
    var m := e[0].maya;
    assert e[0] in contenido;
    assert Mayas(contenido) == (Mayas(contenido) - {m}) + {m};
    ThreeOthersCanComplete(contenido, m);
    var samples :| Completes(contenido, m, samples);
    assert Fits(Dice(0, samples, [0, 0, 0]), contenido, asked);
  }

  /** On a lesson of three or fewer entries no random numbers can pose a
      question: on an empty lesson the choice of a word fails, and on one of 1
      to 3 entries the wrong-answer loop can never finish. */
  lemma SmallLessonCannotPose(contenido: seq<Palabra>, asked: set<string>, d: Dice)
    requires |contenido| <= 3
    ensures !Fits(d, contenido, asked)
  {
    MayasBound(contenido);
    CanPoseIff(contenido, asked);
  }

  /** On a playable lesson some random numbers can always pose the next question,
      whatever has been asked so far. */
  lemma PlayableCanPose(l: Leccion, asked: set<string>)
    requires Playable(l)
    ensures exists d :: Fits(d, l.contenido, asked)
  {
    DistinctMayasCount(l.contenido);
    CanPoseIff(l.contenido, asked);
  }

  /** On the built-in catalog the wrong-answer loop can always finish. */
  lemma DefaultCatalogCanPose(l: Leccion, asked: set<string>)
    requires l in Flatten(DefaultCatalog())
    ensures exists d :: Fits(d, l.contenido, asked)
  {
    DefaultCatalogWellFormed();
    PlayableCanPose(l, asked);
  }

  // ------------------------------------------------------------------ scoring

  const Incremento: int := 10
  const Meta: int := 100
  const VidasIniciales: int := 3

  /** Score and remaining lives. */
  datatype Tally = Tally(puntos: int, vidas: int)

  /** What happens after an answer: the lesson is won, lost, or a new question follows. */
  datatype Outcome = Continue | Won | Lost

  datatype Judged = Judged(tally: Tally, outcome: Outcome)

  /** The tally at the start of a lesson. */
  function Start(): Tally
  {
    Tally(0, VidasIniciales)
  }

  /** The verdict on one answer. */
  function Judge(t: Tally, correcto: bool): (r: Judged)
    ensures correcto ==> r.tally == Tally(t.puntos + Incremento, t.vidas) && r.outcome != Lost
    ensures !correcto ==> r.tally == Tally(t.puntos, t.vidas - 1) && r.outcome != Won
    ensures r.outcome == Won <==> correcto && r.tally.puntos >= Meta
    ensures r.outcome == Lost <==> !correcto && r.tally.vidas <= 0
  {
    if correcto then
      var p := t.puntos + Incremento;
      Judged(Tally(p, t.vidas), if p >= Meta then Won else Continue)
    else
      var v := t.vidas - 1;
      Judged(Tally(t.puntos, v), if v <= 0 then Lost else Continue)
  }

  /** Plays a run of answers (true for a correct one) until the lesson ends or
      the answers run out. */
  function Play(t: Tally, answers: seq<bool>): Judged
    decreases |answers|
  {
    if answers == [] then Judged(t, Continue)
    else
      var j := Judge(t, answers[0]);
      if j.outcome != Continue then j else Play(j.tally, answers[1..])
  }

  /** n correct answers in a row add 10 each; the run is won exactly at the answer
      that first brings the score to 100 or more. */
  lemma {:induction false} CorrectRun(t: Tally, n: nat)
    requires n > 0 && t.puntos + Incremento * (n - 1) < Meta
    ensures Play(t, seq(n, _ => true)) ==
      Judged(Tally(t.puntos + Incremento * n, t.vidas),
             if t.puntos + Incremento * n >= Meta then Won else Continue)
    decreases n
  {
    var answers := seq(n, _ => true);
    assert answers[0];
    if n > 1 {
      var next := Tally(t.puntos + Incremento, t.vidas);
      assert answers[1..] == seq(n - 1, _ => true);
      CorrectRun(next, n - 1);
    }
  }

  /** n wrong answers in a row take one life each; the run is lost exactly at the
      answer that brings the lives to 0 or fewer. */
  lemma {:induction false} WrongRun(t: Tally, n: nat)
    requires n > 0 && t.vidas - (n - 1) > 0
    ensures Play(t, seq(n, _ => false)) ==
      Judged(Tally(t.puntos, t.vidas - n), if t.vidas - n <= 0 then Lost else Continue)
    decreases n
  {
    var answers := seq(n, _ => false);
    assert !answers[0];
    if n > 1 {
      var next := Tally(t.puntos, t.vidas - 1);
      assert answers[1..] == seq(n - 1, _ => false);
      WrongRun(next, n - 1);
    }
  }

  /** From a fresh start, three wrong answers leave 2, 1 and then 0 lives, and
      the lesson is lost on the third with the score still 0. */
  lemma ThreeWrongAnswersLose()
    ensures Play(Start(), [false]) == Judged(Tally(0, 2), Continue)
    ensures Play(Start(), [false, false]) == Judged(Tally(0, 1), Continue)
    ensures Play(Start(), [false, false, false]) == Judged(Tally(0, 0), Lost)
  {
    WrongRun(Start(), 1);
    WrongRun(Start(), 2);
    WrongRun(Start(), 3);
    assert seq(1, _ => false) == [false];
    assert seq(2, _ => false) == [false, false];
    assert seq(3, _ => false) == [false, false, false];
  }

  /** From a fresh start, nine correct answers leave 90 points and the lesson
      going on; the tenth wins it with 100. */
  lemma TenCorrectAnswersWin()
    ensures Play(Start(), seq(9, _ => true)) == Judged(Tally(90, 3), Continue)
    ensures Play(Start(), seq(10, _ => true)) == Judged(Tally(100, 3), Won)
  {
    CorrectRun(Start(), 9);
    CorrectRun(Start(), 10);
  }

  /** Along any run the score never falls and stays a multiple of 10 above the
      start, and the lives never rise. */
  lemma {:induction false} PlayMonotone(t: Tally, answers: seq<bool>)
    ensures var r := Play(t, answers).tally;
      r.puntos >= t.puntos && (r.puntos - t.puntos) % Incremento == 0 && r.vidas <= t.vidas
    decreases |answers|
  {
    if answers != [] {
      var j := Judge(t, answers[0]);
      if j.outcome == Continue {
        PlayMonotone(j.tally, answers[1..]);
      }
    }
  }
}
