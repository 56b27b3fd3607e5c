/**
 * The lesson catalog: word pairs, lessons, levels, and the built-in default
 * catalog that both shells fall back to when no lesson file exists.
 */
module Catalog {

  /** One vocabulary item: the K'iche' term, its Spanish gloss and an image name. */
  datatype Palabra = Palabra(maya: string, espanol: string, imagen: string)

  /** A lesson: an id, a title, a category tag and its ordered word list. */
  datatype Leccion = Leccion(id: int, titulo: string, tipo: string, contenido: seq<Palabra>)

  /** A level ("basico", "intermedio", ...) with its lessons, in catalog order. */
  datatype Nivel = Nivel(nombre: string, lecciones: seq<Leccion>)

  /** The catalog: levels in the order the lesson document lists them. */
  type Catalogo = seq<Nivel>

  /** The K'iche' terms that occur in a word list. */
  function Mayas(contenido: seq<Palabra>): set<string>
  {
    set p | p in contenido :: p.maya
  }

  /** The Spanish glosses that occur in a word list. */
  function Glosses(contenido: seq<Palabra>): set<string>
  {
    set p | p in contenido :: p.espanol
  }

  /** All lessons of a catalog, level by level, each level's lessons in order. */
  function Flatten(c: Catalogo): seq<Leccion>
  {
    if c == [] then [] else Flatten(c[..|c| - 1]) + c[|c| - 1].lecciones
  }

  lemma FlattenSnoc(c: Catalogo, i: nat)
    requires i < |c|
    ensures Flatten(c[..i + 1]) == Flatten(c[..i]) + c[i].lecciones
  {
    assert c[..i + 1][..i] == c[..i];
  }

  /** No two lessons of the catalog share an id. */
  predicate UniqueIds(c: Catalogo)
  {
    var ls := Flatten(c);
    forall i, j :: 0 <= i < j < |ls| ==> ls[i].id != ls[j].id
  }

  /** No two entries of a word list share a K'iche' term. */
  predicate DistinctMayas(contenido: seq<Palabra>)
  {
    forall i, j :: 0 <= i < j < |contenido| ==> contenido[i].maya != contenido[j].maya
  }

  /** No two entries of a word list share a gloss. */
  predicate DistinctGlosses(contenido: seq<Palabra>)
  {
    forall i, j :: 0 <= i < j < |contenido| ==> contenido[i].espanol != contenido[j].espanol
  }

  /** A word list holds at most as many glosses as entries. */
  lemma {:induction false} GlossesBound(contenido: seq<Palabra>)
    ensures |Glosses(contenido)| <= |contenido|
  {
    if contenido != [] {
      var rest := contenido[1..];
      GlossesBound(rest);
      assert Glosses(contenido) == {contenido[0].espanol} + Glosses(rest) by {
        assert contenido == [contenido[0]] + rest;
      }
    }
  }

  /** With pairwise distinct terms, a list of n entries holds exactly n terms. */
  lemma {:induction false} DistinctMayasCount(contenido: seq<Palabra>)
    requires DistinctMayas(contenido)
    ensures |Mayas(contenido)| == |contenido|
  {
    if contenido != [] {
      var rest := contenido[1..];
      assert DistinctMayas(rest) by {
        forall i, j | 0 <= i < j < |rest| ensures rest[i].maya != rest[j].maya {
          assert rest[i] == contenido[i + 1] && rest[j] == contenido[j + 1];
        }
      }
      DistinctMayasCount(rest);
      MayasCons(contenido);
      assert contenido[0].maya !in Mayas(rest) by {
        forall q | q in rest ensures q.maya != contenido[0].maya {
          var k :| 0 <= k < |rest| && rest[k] == q;
          assert contenido[k + 1] == q;
        }
      }
    }
  }

  lemma MayasCons(contenido: seq<Palabra>)
    requires contenido != []
    ensures Mayas(contenido) == {contenido[0].maya} + Mayas(contenido[1..])
  {
    assert contenido == [contenido[0]] + contenido[1..];
  }

  /** A subset is no larger than its superset. */
  lemma SubsetCard(a: set<string>, b: set<string>)
    requires a <= b
    ensures |a| <= |b|
  {
    assert b == a + (b - a);
    assert a * (b - a) == {};
  }

  /** Lesson 1 of the default catalog. */
  function SaludosBasicos(): Leccion
  {
    Leccion(1, "Saludos Básicos", "vocabulario", [
      Palabra("Saqarik", "Buenos días", "sol.png"),
      Palabra("Xqa q'ij", "Buenas tardes", "tarde.png"),
      Palabra("Xokaq'ab'", "Buenas noches", "noche.png"),
      Palabra("Utz awach?", "¿Cómo estás?", "saludo.png"),
      Palabra("Utz tinimit", "Estoy bien", "bien.png")])
  }

  /** Lesson 2 of the default catalog. */
  function Numeros(): Leccion
  {
    Leccion(2, "Números 1-10", "numeros", [
      Palabra("Jun", "Uno", "1.png"),
      Palabra("Kieb'", "Dos", "2.png"),
      Palabra("Oxib'", "Tres", "3.png"),
      Palabra("Kajib'", "Cuatro", "4.png"),
      Palabra("Job'", "Cinco", "5.png")])
  }

  /** Lesson 3 of the default catalog. */
  function Familia(): Leccion
  {
    Leccion(3, "Familia", "vocabulario", [
      Palabra("Na", "Madre", "madre.png"),
      Palabra("Te", "Padre", "padre.png"),
      Palabra("Ali", "Hijo/Hija", "hijo.png"),
      Palabra("Achijab'", "Hermano", "hermano.png")])
  }

  /** The catalog written out by both shells when the lesson file is missing. */
  function DefaultCatalog(): Catalogo
  {
    [Nivel("basico", [SaludosBasicos(), Numeros()]), Nivel("intermedio", [Familia()])]
  }

  /** A lesson every question of which can be asked: at least four entries,
      pairwise distinct terms and pairwise distinct glosses. */
  predicate Playable(l: Leccion)
  {
    |l.contenido| >= 4 && DistinctMayas(l.contenido) && DistinctGlosses(l.contenido)
  }

  lemma FlattenDefault()
    ensures Flatten(DefaultCatalog()) == [SaludosBasicos(), Numeros(), Familia()]
  {
    var c := DefaultCatalog();
    FlattenSnoc(c, 0);
    FlattenSnoc(c, 1);
    assert c[..2] == c;
    assert c[..0] == [];
  }

  lemma SaludosBasicosPlayable()
    ensures Playable(SaludosBasicos())
  {
  }

  lemma NumerosPlayable()
    ensures Playable(Numeros())
  {
  }

  lemma FamiliaPlayable()
    ensures Playable(Familia())
  {
  }

  /** The default catalog holds lessons 1, 2 and 3, in that order, so its ids are
      unique, and every one of its lessons is playable. */
  lemma DefaultCatalogWellFormed()
    ensures UniqueIds(DefaultCatalog())
    ensures |Flatten(DefaultCatalog())| == 3
    ensures forall k | 0 <= k < 3 :: Flatten(DefaultCatalog())[k].id == k + 1
    ensures forall l | l in Flatten(DefaultCatalog()) :: Playable(l)
  {
    FlattenDefault();
    SaludosBasicosPlayable();
    NumerosPlayable();
    FamiliaPlayable();
  }
}
