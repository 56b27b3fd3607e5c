/**
 * The web shell: finding a lesson by id, the per-learner session state, and the
 * exercise route that scores a posted answer and poses the next question.
 * The session is plain typed state; the cookie that stores it is not modelled.
 */
module Web {
  import opened Wrappers
  import opened Catalog
  import opened Engine

  // ------------------------------------------------------------ lesson lookup

  /** The first lesson of the list with the given id. */
  function FirstWithId(ls: seq<Leccion>, id: int): Option<Leccion>
  {
    if ls == [] then None
    else if ls[0].id == id then Some(ls[0])
    else FirstWithId(ls[1..], id)
  }

  /** `FirstWithId` finds a lesson exactly when one has the id, and what it finds
      is the earliest one. */
  lemma {:induction false} FirstWithIdSpec(ls: seq<Leccion>, id: int)
    ensures FirstWithId(ls, id).None? <==> forall k :: 0 <= k < |ls| ==> ls[k].id != id
    ensures FirstWithId(ls, id).Some? ==>
      exists k :: 0 <= k < |ls| && ls[k] == FirstWithId(ls, id).value && ls[k].id == id &&
        forall k' :: 0 <= k' < k ==> ls[k'].id != id
  {
    if ls != [] && ls[0].id != id {
      FirstWithIdSpec(ls[1..], id);
      if FirstWithId(ls[1..], id).Some? {
        var k :| 0 <= k < |ls[1..]| && ls[1..][k] == FirstWithId(ls[1..], id).value && ls[1..][k].id == id &&
          forall k' :: 0 <= k' < k ==> ls[1..][k'].id != id;
        assert ls[k + 1] == ls[1..][k];
        forall k' | 0 <= k' < k + 1 ensures ls[k'].id != id {
          if k' > 0 {
            assert ls[k'] == ls[1..][k' - 1];
          }
        }
      } else {
        forall k | 0 <= k < |ls| ensures ls[k].id != id {
          if k > 0 {
            assert ls[k] == ls[1..][k - 1];
          }
        }
      }
    }
  }

  lemma {:induction false} FirstWithIdAppend(a: seq<Leccion>, b: seq<Leccion>, id: int)
    ensures FirstWithId(a + b, id) == if FirstWithId(a, id).Some? then FirstWithId(a, id) else FirstWithId(b, id)
    decreases |a|
  {
    if a != [] {
      assert (a + b)[1..] == a[1..] + b;
      FirstWithIdAppend(a[1..], b, id);
    } else {
      assert a + b == b;
    }
  }

  lemma {:induction false} FlattenAppend(a: Catalogo, b: Catalogo)
    ensures Flatten(a + b) == Flatten(a) + Flatten(b)
    decreases |b|
  {
    if b != [] {
      var b' := b[..|b| - 1];
      assert (a + b)[..|a + b| - 1] == a + b';
      FlattenAppend(a, b');
    } else {
      assert a + b == a;
    }
  }

  /** The first match in a list is found at j when none of the entries before j matches. */
  lemma FoundAt(ls: seq<Leccion>, j: nat, id: int)
    requires j < |ls| && ls[j].id == id && FirstWithId(ls[..j], id) == None
    ensures FirstWithId(ls, id) == Some(ls[j])
  {
    FirstWithIdAppend(ls[..j], ls[j..], id);
    assert ls[..j] + ls[j..] == ls;
  }

  lemma NotFoundUpTo(ls: seq<Leccion>, j: nat, id: int)
    requires j < |ls| && ls[j].id != id && FirstWithId(ls[..j], id) == None
    ensures FirstWithId(ls[..j + 1], id) == None
  {
    FirstWithIdAppend(ls[..j], [ls[j]], id);
    assert ls[..j + 1] == ls[..j] + [ls[j]];
  }

  /** Extending the levels searched so far by one level. */
  lemma LevelSearched(c: Catalogo, i: nat, id: int)
    requires i < |c| && FirstWithId(Flatten(c[..i]), id) == None
    ensures FirstWithId(Flatten(c[..i + 1]), id) == FirstWithId(c[i].lecciones, id)
  {
    FlattenSnoc(c, i);
    FirstWithIdAppend(Flatten(c[..i]), c[i].lecciones, id);
  }

  /** A match in the levels up to i is the match of the whole catalog. */
  lemma FoundInPrefix(c: Catalogo, i: nat, id: int)
    requires i <= |c| && FirstWithId(Flatten(c[..i]), id).Some?
    ensures FirstWithId(Flatten(c), id) == FirstWithId(Flatten(c[..i]), id)
  {
    FlattenAppend(c[..i], c[i..]);
    assert c[..i] + c[i..] == c;
    FirstWithIdAppend(Flatten(c[..i]), Flatten(c[i..]), id);
  }

  /** The lookup of the lesson route: levels in order, lessons of each level in
      order, stopping at the first lesson with the id. */
  method BuscarLeccion(lecciones: Catalogo, leccionId: int) returns (leccion: Option<Leccion>)
    ensures leccion == FirstWithId(Flatten(lecciones), leccionId)
  {
    leccion := None;
    var i := 0;
    while i < |lecciones|
      invariant 0 <= i <= |lecciones| && leccion.None?
      invariant FirstWithId(Flatten(lecciones[..i]), leccionId) == None
    {
      var nivel := lecciones[i].lecciones;
      var j := 0;
      while j < |nivel|
        invariant 0 <= j <= |nivel| && leccion.None?
        invariant FirstWithId(nivel[..j], leccionId) == None
      {
        if nivel[j].id == leccionId {
          leccion := Some(nivel[j]);
          FoundAt(nivel, j, leccionId);
          break;
        }
        NotFoundUpTo(nivel, j, leccionId);
        j := j + 1;
      }
      if leccion.None? {
        assert nivel[..j] == nivel;
      }
      LevelSearched(lecciones, i, leccionId);
      if leccion.Some? {
        FoundInPrefix(lecciones, i + 1, leccionId);
        break;
      }
      i := i + 1;
    }
    if leccion.None? {
      assert lecciones[..i] == lecciones;
    }
  }

  // ----------------------------------------------------------------- session

  /** The glosses recorded in the asked list. */
  function AsSet(xs: seq<string>): set<string>
  {
    set x | x in xs
  }

  /** A request to the exercise route: a plain visit, or a posted answer with the
      correct term the form carried along. */
  datatype Peticion = Get | Post(respuesta: string, correcta: string)

  /** What a route answers: a redirect, or the exercise page with its data. */
  datatype Route =
    | ToIndex
    | ToLecciones
    | ToEjercicio
    | Render(palabra: Palabra, opciones: seq<string>, puntos: int, vidas: int)

  /** The score and lives after a request, and whether a question follows. */
  function AfterRequest(p: Peticion, t: Tally): Judged
  {
    match p
    case Get => Judged(t, Continue)
    case Post(respuesta, correcta) => Judge(t, respuesta == correcta)
  }

  /** The session state of one learner. */
  class WebSession {
    var usuarioId: Option<int>
    var leccionActual: Option<Leccion>
    var puntos: int
    var vidas: int
    var palabrasPreguntadas: seq<string>

    /** The score is a non-negative multiple of 10, lives never exceed 3, and the
        asked list only holds glosses of the current lesson. */
    ghost predicate Valid()
      reads this
    {
      && 0 <= puntos && puntos % Incremento == 0 && vidas <= VidasIniciales
      && (leccionActual.None? ==> palabrasPreguntadas == [])
      && (leccionActual.Some? ==> AsSet(palabrasPreguntadas) <= Glosses(leccionActual.value.contenido))
    }

    /** A fresh session: the learner's id, no lesson yet, and the defaults the
        exercise route reads for missing entries. */
    constructor (usuarioId: Option<int>)
      ensures Valid()
      ensures this.usuarioId == usuarioId && leccionActual == None
      ensures puntos == 0 && vidas == VidasIniciales && palabrasPreguntadas == []
    {
      this.usuarioId := usuarioId;
      leccionActual := None;
      puntos := 0;
      vidas := VidasIniciales;
      palabrasPreguntadas := [];
    }

    /** The lesson route: without a logged-in learner, back to the index; for an
        unknown id, back to the lesson list; otherwise the lesson is stored with
        0 points, 3 lives and an empty asked list. */
    method IniciarLeccion(lecciones: Catalogo, leccionId: int) returns (route: Route)
      requires Valid()
      modifies this`leccionActual, this`puntos, this`vidas, this`palabrasPreguntadas
      ensures Valid()
      ensures var found := FirstWithId(Flatten(lecciones), leccionId);
        if usuarioId.None? || found.None? then
          && route == (if usuarioId.None? then ToIndex else ToLecciones)
          && leccionActual == old(leccionActual) && puntos == old(puntos) && vidas == old(vidas)
          && palabrasPreguntadas == old(palabrasPreguntadas)
        else
          && route == ToEjercicio
          && leccionActual == found && puntos == 0 && vidas == VidasIniciales && palabrasPreguntadas == []
    {
      if usuarioId.None? {
        return ToIndex;
      }
      var leccion := BuscarLeccion(lecciones, leccionId);
      if leccion.None? {
        return ToLecciones;
      }
      leccionActual := leccion;
      puntos := 0;
      vidas := VidasIniciales;
      palabrasPreguntadas := [];
      route := ToEjercicio;
    }

    /** The question this route poses and the asked list it stores: the chosen
        word is eligible, the list grows by that word's gloss (also when every
        gloss had already been asked), and the options are the shuffled correct
        term and its wrong answers. */
    ghost predicate Posed(c: seq<Palabra>, before: seq<string>, d: Dice, q: Question)
      reads this
      requires Fits(d, c, AsSet(before))
    {
      && Poses(c, AsSet(before), d, q)
      && q.palabra in c
      && (!AllAsked(c, AsSet(before)) ==> q.palabra.espanol !in before)
      && palabrasPreguntadas == before + [q.palabra.espanol]
    }

    /** The exercise route: scores a posted answer (a correct one adds 10 and
        finishes at 100 or more, a wrong one costs a life and ends at 0 or fewer),
        then poses the next question and shows it with the updated score and lives. */
    method Ejercicio(p: Peticion, d: Dice) returns (route: Route)
      requires Valid()
      requires usuarioId.Some? && leccionActual.Some? &&
               AfterRequest(p, Tally(puntos, vidas)).outcome == Continue ==>
                 Fits(d, leccionActual.value.contenido, AsSet(palabrasPreguntadas))
      modifies this`puntos, this`vidas, this`palabrasPreguntadas
      ensures Valid()
      ensures usuarioId.None? || leccionActual.None? ==>
        && route == ToIndex
        && puntos == old(puntos) && vidas == old(vidas) && palabrasPreguntadas == old(palabrasPreguntadas)
      ensures usuarioId.Some? && leccionActual.Some? ==>
        Tally(puntos, vidas) == AfterRequest(p, Tally(old(puntos), old(vidas))).tally
      ensures usuarioId.Some? && leccionActual.Some? &&
              AfterRequest(p, Tally(old(puntos), old(vidas))).outcome != Continue ==>
        route == ToLecciones && palabrasPreguntadas == old(palabrasPreguntadas)
      ensures usuarioId.Some? && leccionActual.Some? &&
              AfterRequest(p, Tally(old(puntos), old(vidas))).outcome == Continue ==>
        && route.Render? && route.puntos == puntos && route.vidas == vidas
        && Fits(d, leccionActual.value.contenido, AsSet(old(palabrasPreguntadas)))
        && Posed(leccionActual.value.contenido, old(palabrasPreguntadas), d,
                 Question(route.palabra, route.opciones))
    {
      if usuarioId.None? || leccionActual.None? {
        return ToIndex;
      }
      ghost var before := palabrasPreguntadas;
      ghost var j := AfterRequest(p, Tally(puntos, vidas));
      var sigue := Responder(p);
      assert palabrasPreguntadas == before && Tally(puntos, vidas) == j.tally;
      assert usuarioId.Some? && leccionActual.Some?;
      if !sigue {
        return ToLecciones;
      }
      assert Fits(d, leccionActual.value.contenido, AsSet(before));
      route := Preguntar(d);
      assert usuarioId.Some? && leccionActual.Some?;
    }

    /** The answer-scoring part of the exercise route; `sigue` tells whether a
        question follows. */
    method Responder(p: Peticion) returns (sigue: bool)
      requires Valid()
      modifies this`puntos, this`vidas
      ensures Valid()
      ensures var j := AfterRequest(p, Tally(old(puntos), old(vidas)));
        Tally(puntos, vidas) == j.tally && sigue == (j.outcome == Continue)
    {
      sigue := true;
      if p.Post? {
        if p.respuesta == p.correcta {
          puntos := puntos + Incremento;
          if puntos >= Meta {
            sigue := false;
          }
        } else {
          vidas := vidas - 1;
          if vidas <= 0 {
            sigue := false;
          }
        }
      }
    }

    /** The question part of the exercise route: choose a word and store the
        asked list, build the options and show them with the current score and
        lives. */
    method Preguntar(d: Dice) returns (route: Route)
      requires Valid() && leccionActual.Some?
      requires Fits(d, leccionActual.value.contenido, AsSet(palabrasPreguntadas))
      modifies this`palabrasPreguntadas
      ensures Valid()
      ensures route.Render? && route.puntos == puntos && route.vidas == vidas
      ensures Posed(leccionActual.value.contenido, old(palabrasPreguntadas), d,
                    Question(route.palabra, route.opciones))
    {
      var palabra := Elegir(d);
      var opciones := BuildOptions(leccionActual.value.contenido, palabra.maya, d.samples, d.swaps);
      route := Render(palabra, opciones, puntos, vidas);
    }

    /** The word-choosing part of the exercise route: picks the chosen eligible
        word and stores the asked list with its gloss appended. The reset of the
        stored list when every gloss was asked is overwritten by that store. */
    method Elegir(d: Dice) returns (palabra: Palabra)
      requires Valid() && leccionActual.Some?
      requires Fits(d, leccionActual.value.contenido, AsSet(palabrasPreguntadas))
      modifies this`palabrasPreguntadas
      ensures Valid()
      ensures var c := leccionActual.value.contenido; var before := old(palabrasPreguntadas);
        && palabra == Eligible(c, AsSet(before))[d.choice] && palabra in c
        && (!AllAsked(c, AsSet(before)) ==> palabra.espanol !in before)
        && palabrasPreguntadas == before + [palabra.espanol]
    {
      var preguntadas := palabrasPreguntadas;
      var contenido := leccionActual.value.contenido;
      var disponibles := Unasked(contenido, AsSet(preguntadas));
      UnaskedEmpty(contenido, AsSet(preguntadas));
      if disponibles == [] {
        // the stored list is emptied here, but overwritten below
        palabrasPreguntadas := [];
        disponibles := contenido;
      }
      assert disponibles == Eligible(contenido, AsSet(preguntadas));
      palabra := disponibles[d.choice];
      assert palabra in contenido;
      preguntadas := preguntadas + [palabra.espanol];
      palabrasPreguntadas := preguntadas;
      assert palabra.espanol in Glosses(contenido);
    }
  }

  // --------------------------------------------------- the asked list's reset

  /** Once every gloss is in the asked list, the route's append keeps it so:
      every later pass has the whole lesson eligible. */
  lemma StaysExhausted(c: seq<Palabra>, before: seq<string>, g: string)
    requires AllAsked(c, AsSet(before))
    ensures AllAsked(c, AsSet(before + [g]))
    ensures Eligible(c, AsSet(before + [g])) == c
  {
    assert AsSet(before) <= AsSet(before + [g]);
  }

  /** On the built-in family lesson: after its four glosses have been asked, the
      next pass stores five entries for a four-word lesson, one of them twice. */
  lemma ResetIsOverwritten()
    ensures var c := Familia().contenido;
      var asked := ["Madre", "Padre", "Hijo/Hija", "Hermano"];
      var palabra := Eligible(c, AsSet(asked))[0];
      && AllAsked(c, AsSet(asked))
      && palabra == c[0]
      && |asked + [palabra.espanol]| == 5 > |c|
      && !Distinct(asked + [palabra.espanol])
  {
    var c := Familia().contenido;
    var asked := ["Madre", "Padre", "Hijo/Hija", "Hermano"];
    assert forall p | p in c :: p.espanol in asked;
    assert AllAsked(c, AsSet(asked));
    var e := asked + [c[0].espanol];
    assert e[0] == e[4];
  }

  /** The asked-list step the route's comment describes: emptied first when every
      gloss has been asked, then extended by the chosen gloss. */
  function ResetAskedList(c: seq<Palabra>, before: seq<string>, palabra: Palabra): (r: seq<string>)
    ensures AsSet(r) == (if AllAsked(c, AsSet(before)) then {} else AsSet(before)) + {palabra.espanol}
  {
    (if AllAsked(c, AsSet(before)) then [] else before) + [palabra.espanol]
  }

  lemma {:induction false} DistinctCount(xs: seq<string>)
    requires Distinct(xs)
    ensures |AsSet(xs)| == |xs|
  {
    if xs != [] {
      var rest := xs[1..];
      assert Distinct(rest) by {
        forall i, j | 0 <= i < j < |rest| ensures rest[i] != rest[j] {
          assert rest[i] == xs[i + 1] && rest[j] == xs[j + 1];
        }
      }
      DistinctCount(rest);
      assert AsSet(xs) == {xs[0]} + AsSet(rest) by {
        assert xs == [xs[0]] + rest;
      }
      forall y | y in rest ensures y != xs[0] {
        var k :| 0 <= k < |rest| && rest[k] == y;
        assert xs[k + 1] == y;
      }
    }
  }

  /** With the reset in place, a list that starts without repeats and only holds
      the lesson's glosses keeps both properties, so it never outgrows the lesson. */
  lemma ResetAskedListBounded(c: seq<Palabra>, before: seq<string>, palabra: Palabra)
    requires Distinct(before) && AsSet(before) <= Glosses(c)
    requires palabra in Eligible(c, AsSet(before))
    ensures var r := ResetAskedList(c, before, palabra);
      Distinct(r) && AsSet(r) <= Glosses(c) && |r| <= |c|
  {
    var r := ResetAskedList(c, before, palabra);
    assert palabra in c;
    if !AllAsked(c, AsSet(before)) {
      assert palabra.espanol !in AsSet(before);
      assert Distinct(r) by {
        forall i, j | 0 <= i < j < |r| ensures r[i] != r[j] {
          if j == |before| {
            assert r[i] == before[i];
            assert before[i] in AsSet(before);
          } else {
            assert r[i] == before[i] && r[j] == before[j];
          }
        }
      }
    }
    DistinctCount(r);
    GlossesBound(c);
    SubsetCard(AsSet(r), Glosses(c));
  }
}
