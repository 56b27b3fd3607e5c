/**
 * The desktop shell's quiz state and the three operations that drive it:
 * starting a lesson, posing a question, and checking an answer.
 */
module Desktop {
  import opened Wrappers
  import opened Catalog
  import opened Engine

  /** The question-state fields of the desktop application object. */
  class AprendizajeMayaKiche {
    const lecciones: Catalogo
    var leccionActual: Option<Leccion>
    var puntos: int
    var vidas: int
    var palabrasPreguntadas: set<string>

    /** The score is a non-negative multiple of 10, lives never exceed the
        initial 3, and only glosses of the current lesson are recorded as asked. */
    ghost predicate Valid()
      reads this
    {
      && 0 <= puntos && puntos % Incremento == 0 && vidas <= VidasIniciales
      && (leccionActual.None? ==> palabrasPreguntadas == {})
      && (leccionActual.Some? ==> palabrasPreguntadas <= Glosses(leccionActual.value.contenido))
    }

    /** The state after start-up: no lesson, 0 points, 3 lives, nothing asked. */
    constructor (lecciones: Catalogo)
      ensures Valid()
      ensures this.lecciones == lecciones && leccionActual == None
      ensures puntos == 0 && vidas == VidasIniciales && palabrasPreguntadas == {}
    {
      this.lecciones := lecciones;
      leccionActual := None;
      puntos := 0;
      vidas := VidasIniciales;
      palabrasPreguntadas := {};
    }

    /** The new asked set and question after one pass of question generation:
        the chosen word is eligible, its gloss is added to the asked set (which
        is first emptied when every gloss had been asked), and the options are
        the shuffled correct term and its wrong answers. */
    ghost predicate Posed(c: seq<Palabra>, before: set<string>, d: Dice, q: Question)
      reads this
      requires Fits(d, c, before)
    {
      && Poses(c, before, d, q)
      && q.palabra in c
      && (AllAsked(c, before) ==> palabrasPreguntadas == {q.palabra.espanol})
      && (!AllAsked(c, before) ==>
            q.palabra.espanol !in before && palabrasPreguntadas == before + {q.palabra.espanol})
    }

    /** Starts a lesson: 0 points, 3 lives, nothing asked, then the first question. */
    method IniciarLeccion(leccion: Leccion, d: Dice) returns (q: Question)
      requires leccion in Flatten(lecciones)
      requires Fits(d, leccion.contenido, {})
      modifies this`leccionActual, this`puntos, this`vidas, this`palabrasPreguntadas
      ensures Valid()
      ensures leccionActual == Some(leccion) && puntos == 0 && vidas == VidasIniciales
      ensures Posed(leccion.contenido, {}, d, q)
    {
      leccionActual := Some(leccion);
      puntos := 0;
      vidas := VidasIniciales;
      palabrasPreguntadas := {};
      q := MostrarEjercicio(d);
    }

    /** Poses a question: picks an unasked word (any word once all have been
        asked, after emptying the asked set), records its gloss, and builds the
        shuffled options. */
    method MostrarEjercicio(d: Dice) returns (q: Question)
      requires Valid() && leccionActual.Some?
      requires Fits(d, leccionActual.value.contenido, palabrasPreguntadas)
      modifies this`palabrasPreguntadas
      ensures Valid()
      ensures Posed(leccionActual.value.contenido, old(palabrasPreguntadas), d, q)
      ensures |palabrasPreguntadas| <= |leccionActual.value.contenido|
    {
      var palabra := Elegir(d);
      var opciones := BuildOptions(leccionActual.value.contenido, palabra.maya, d.samples, d.swaps);
      q := Question(palabra, opciones);
    }

    /** The word-choosing part of posing a question: empties the asked set when
        every gloss has been asked, picks the chosen eligible word and records
        its gloss. */
    method Elegir(d: Dice) returns (palabra: Palabra)
      requires Valid() && leccionActual.Some?
      requires Fits(d, leccionActual.value.contenido, palabrasPreguntadas)
      modifies this`palabrasPreguntadas
      ensures Valid()
      ensures var c := leccionActual.value.contenido; var before := old(palabrasPreguntadas);
        && palabra == Eligible(c, before)[d.choice] && palabra in c
        && (AllAsked(c, before) ==> palabrasPreguntadas == {palabra.espanol})
        && (!AllAsked(c, before) ==> palabra.espanol !in before && palabrasPreguntadas == before + {palabra.espanol})
      ensures |palabrasPreguntadas| <= |leccionActual.value.contenido|
    {
      ghost var before := palabrasPreguntadas;
      var contenido := leccionActual.value.contenido;
      var disponibles := Unasked(contenido, palabrasPreguntadas);
      UnaskedEmpty(contenido, palabrasPreguntadas);
      if disponibles == [] {
        palabrasPreguntadas := {};
        disponibles := contenido;
      }
      assert disponibles == Eligible(contenido, before);
      palabra := disponibles[d.choice];
      palabrasPreguntadas := palabrasPreguntadas + {palabra.espanol};
      assert palabra.espanol in Glosses(contenido);
      AskedBound(contenido, palabrasPreguntadas);
    }

    /** Checks an answer: a correct one adds 10 points and wins at 100 or more,
        a wrong one costs a life and loses at 0 or fewer; otherwise the next
        question is posed. */
    method VerificarRespuesta(respuesta: string, correcta: string, d: Dice)
      returns (outcome: Outcome, siguiente: Option<Question>)
      requires Valid() && leccionActual.Some?
      requires Judge(Tally(puntos, vidas), respuesta == correcta).outcome == Continue ==>
                 Fits(d, leccionActual.value.contenido, palabrasPreguntadas)
      modifies this`puntos, this`vidas, this`palabrasPreguntadas
      ensures Valid()
      ensures Judged(Tally(puntos, vidas), outcome) == Judge(Tally(old(puntos), old(vidas)), respuesta == correcta)
      ensures siguiente.Some? <==> outcome == Continue
      ensures siguiente.None? ==> palabrasPreguntadas == old(palabrasPreguntadas)
      ensures siguiente.Some? ==>
        Fits(d, leccionActual.value.contenido, old(palabrasPreguntadas)) &&
        Posed(leccionActual.value.contenido, old(palabrasPreguntadas), d, siguiente.value)
    {
      siguiente := None;
      if respuesta == correcta {
        puntos := puntos + Incremento;
        if puntos >= Meta {
          outcome := Won;
        } else {
          outcome := Continue;
          var q := MostrarEjercicio(d);
          siguiente := Some(q);
        }
      } else {
        vidas := vidas - 1;
        if vidas <= 0 {
          outcome := Lost;
        } else {
          outcome := Continue;
          var q := MostrarEjercicio(d);
          siguiente := Some(q);
        }
      }
    }
  }

  /** A set of glosses of a lesson is no larger than the lesson. */
  lemma AskedBound(contenido: seq<Palabra>, asked: set<string>)
    requires asked <= Glosses(contenido)
    ensures |asked| <= |contenido|
  {
    GlossesBound(contenido);
    SubsetCard(asked, Glosses(contenido));
  }
}
