/**
  * The home page carousel of src/components/EventCarousel.tsx: the search filter over the
  * events, the fallback slides, circular navigation of the active index, the placement of
  * each card relative to the active one, and the texts derived from the slides.
  */
module EventCarousel {
  import opened Common
  import opened JsText
  import opened JsNumber
  import Seqs

  datatype Evento = Evento(id: int, titulo: string, descripcion: string, fecha: string, lugar: string,
                           imagenUrl: string)

  /** The three slides shown when no event matches; their id 0 hides the details button. */
  const DefaultSlides: seq<Evento> := [
    Evento(0, "Próximos Eventos",
           "Descubre los mejores eventos de tu ciudad. Conciertos, festivales, teatro y más.",
           "", "", "https://cdn.mos.cms.futurecdn.net/dP3N4qnEZ4tCTCLq59iysd.jpg"),
    Evento(0, "Vive la Experiencia",
           "Compra tus entradas de forma segura y recíbelas al instante en tu correo.",
           "", "", "https://i.redd.it/tc0aqpv92pn21.jpg"),
    Evento(0, "Eventos Exclusivos",
           "Accede a preventas y ofertas especiales para los eventos más populares.",
           "", "", "https://images7.alphacoders.com/878/878663.jpg")
  ]

  // ------------------------------------------------------------------ search

  /** The lowercased term occurs in the lowercased title, venue or description. */
  predicate Matches(e: Evento, term: string) {
    var t := ToLower(term);
    Includes(ToLower(e.titulo), t) || Includes(ToLower(e.lugar), t) || Includes(ToLower(e.descripcion), t)
  }

  /** `eventos.filter(...)`: the matching events, in their original order (see Seqs.Filter). */
  function Filter(es: seq<Evento>, term: string): seq<Evento> {
    Seqs.Filter(es, e => Matches(e, term))
  }

  /** The filter keeps an event exactly when it matches, and keeps the events' order. */
  lemma FilterKeepsMatches(es: seq<Evento>, term: string)
    ensures forall k :: 0 <= k < |Filter(es, term)| ==> Filter(es, term)[k] in es && Matches(Filter(es, term)[k], term)
    ensures forall i :: 0 <= i < |es| && Matches(es[i], term) ==> es[i] in Filter(es, term)
    ensures var idx := Seqs.Positions(es, e => Matches(e, term));
            && |Filter(es, term)| == |idx|
            && (forall k :: 0 <= k < |idx| ==> Filter(es, term)[k] == es[idx[k]])
            && (forall k, l :: 0 <= k < l < |idx| ==> idx[k] < idx[l])
  {
    Seqs.FilterIff(es, e => Matches(e, term));
  }

  /** The empty search term keeps every event. */
  lemma EmptyTermKeepsAll(es: seq<Evento>)
    ensures Filter(es, "") == es
  {
    forall k | 0 <= k < |es|
      ensures Matches(es[k], "")
    {
      MatchesEmpty(es[k]);
    }
    Seqs.FilterAll(es, e => Matches(e, ""));
  }

  lemma MatchesEmpty(e: Evento)
    ensures Matches(e, "")
  {
    assert ToLower("") == "";
    IncludesEmpty(ToLower(e.titulo));
  }

  /** `slides`: the matching events, or the default slides when there is none. */
  function Slides(es: seq<Evento>, term: string): (r: seq<Evento>)
    ensures |r| >= 1
    ensures |Filter(es, term)| > 0 ==> r == Filter(es, term)
    ensures |Filter(es, term)| == 0 ==> r == DefaultSlides
  {
    var f := Filter(es, term);
    if |f| > 0 then f else DefaultSlides
  }

  // -------------------------------------------------------------- navigation

  /** `goToNext`: `(prev + 1) % slides.length`. The index is never negative, where JavaScript's
      remainder and Dafny's agree. */
  function Next(i: int, n: int): (r: int)
    requires 0 <= i && n >= 1
    ensures 0 <= r < n
  {
    (i + 1) % n
  }

  /** `goToPrev`: `(prev - 1 + slides.length) % slides.length`. */
  function Prev(i: int, n: int): (r: int)
    requires 0 <= i && n >= 1
    ensures 0 <= r < n
  {
    (i - 1 + n) % n
  }

  /** On indices in range the two moves undo each other. */
  lemma NextPrevInverse(i: int, n: int)
    requires 0 <= i < n
    ensures Prev(Next(i, n), n) == i
    ensures Next(Prev(i, n), n) == i
  {
    if i + 1 == n {
      ModOnce(i + 1, n);
      ModOnce(n - 1 + n, n);
    } else {
      ModBelow(i + 1, n);
      ModOnce(i + n, n);
    }
    if i == 0 {
      ModBelow(n - 1, n);
      ModOnce(n, n);
    } else {
      ModOnce(i - 1 + n, n);
      ModBelow(i, n);
    }
  }

  lemma ModBelow(x: int, n: int)
    requires 0 <= x < n
    ensures x % n == x
  {
  }

  lemma ModOnce(x: int, n: int)
    requires 0 < n <= x < 2 * n
    ensures x % n == x - n
  {
  }

  // ---------------------------------------------------------- card placement

  /** `normalizedDiff`: the offset of a card from the active one, folded into the nearer
      direction around the circle. Both tests use the raw `diff`; `totalSlides / 2` is a
      real division, so `diff > n / 2` is `2 * diff > n`. */
  function NormalizedDiff(index: int, active: int, n: int): int {
    var diff := index - active;
    var folded := if 2 * diff > n then diff - n else diff;
    if 2 * diff < -n then diff + n else folded
  }

  /** The part of a card's style that decides what is seen: stacking order, opacity in
      hundredths, and whether the card fills the screen. */
  datatype Style = Style(zIndex: int, opacityPct: int, fullscreen: bool)

  /** `getCardStyle(index)`, its position and size left aside. */
  function CardStyle(index: int, active: int, n: int): Style {
    var d := NormalizedDiff(index, active, n);
    if d == 0 then Style(2, 100, true)
    else if d == -1 || d == n - 1 then Style(1, 50, true)
    else if 1 <= d <= 4 then Style(5 - d, if d == 4 then 0 else 100, false)
    else Style(0, 0, false)
  }

  /** For two indices in range the folded offset is the raw one or the raw one less or plus
      `n`, it lies in [-n/2, n/2] (both ends occur when `n` is even), and it is zero only for
      the active card. */
  lemma NormalizedDiffRange(index: int, active: int, n: int)
    requires 0 <= index < n && 0 <= active < n
    ensures var d := NormalizedDiff(index, active, n);
            && -n <= 2 * d <= n
            && (d - (index - active)) in {0, n, -n}
            && (d == 0 <==> index == active)
  {
  }

  /** The active card, and no other, is shown full-screen and fully opaque on top of the
      background cards. */
  lemma OnlyActiveIsFront(index: int, active: int, n: int)
    requires 0 <= index < n && 0 <= active < n
    ensures var s := CardStyle(index, active, n);
            (s.fullscreen && s.opacityPct == 100) <==> index == active
    ensures index == active ==> CardStyle(index, active, n) == Style(2, 100, true)
  {
    NormalizedDiffRange(index, active, n);
  }

  /** With two slides or more, the card before the active one is the half-transparent background. */
  lemma PreviousIsBackground(active: int, n: int)
    requires n >= 2 && 0 <= active < n
    ensures CardStyle(Prev(active, n), active, n) == Style(1, 50, true)
  {
    if active == 0 {
      assert Prev(active, n) == n - 1;
    } else {
      assert Prev(active, n) == active - 1;
    }
  }

  /** With three slides or more, the card after the active one heads the stack on the right. */
  lemma NextHeadsStack(active: int, n: int)
    requires n >= 3 && 0 <= active < n
    ensures CardStyle(Next(active, n), active, n) == Style(4, 100, false)
  {
    if active == n - 1 {
      assert Next(active, n) == 0;
    } else {
      assert Next(active, n) == active + 1;
    }
  }

  /** A stacked card `d` steps ahead, 1 <= d <= 4, sits at depth `5 - d` and only the fourth is
      transparent; every card past the stack is hidden. */
  lemma StackedCards(index: int, active: int, n: int)
    requires var d := NormalizedDiff(index, active, n); d != -1 && d != n - 1
    ensures var d := NormalizedDiff(index, active, n);
            && (1 <= d <= 4 ==> CardStyle(index, active, n) == Style(5 - d, if d == 4 then 0 else 100, false))
            && (d != 0 && !(1 <= d <= 4) ==> CardStyle(index, active, n) == Style(0, 0, false))
            && (CardStyle(index, active, n).opacityPct == 0 <==> d == 4 || (d != 0 && !(1 <= d <= 4)))
  {
  }

  // ------------------------------------------------------------------ texts

  const MaxDescription: nat := 150

  /** The description shown under the title: cut to 150 characters plus an ellipsis when longer. */
  function Truncate(desc: string): (r: string)
    ensures |desc| > MaxDescription ==> |r| == MaxDescription + 3 && r[..MaxDescription] == desc[..MaxDescription]
                                        && r[MaxDescription..] == "..."
    ensures |desc| <= MaxDescription ==> r == desc
  {
    if |desc| > MaxDescription then desc[..MaxDescription] + "..." else desc
  }

  /** What follows the count: ` evento${s} encontrado${s}`, with `s` for every count but one. */
  function CountSuffix(n: nat): string {
    " evento" + (if n != 1 then "s" else "") + " encontrado" + (if n != 1 then "s" else "")
  }

  /** The result line under the search box. */
  function CountText(n: nat): string {
    if n > 0 then NatToString(n) + CountSuffix(n) else "No se encontraron eventos"
  }

  /** The line opens with the count it was made from: `parseInt` reads it back. */
  lemma CountTextStatesCount(n: nat)
    ensures n > 0 ==> ParseInt(CountText(n)) == Some(n)
    ensures n == 0 ==> ParseInt(CountText(n)).None?
  {
    if n > 0 {
      assert CountSuffix(n)[0] == ' ';
      ParseIntOfNatThen(n, CountSuffix(n));
    } else {
      var t := CountText(n);
      assert TrimStart(t) == t by {
        assert !IsSpace(t[0]);
      }
      assert Unsigned(t) == t;
      assert !IsRadixDigit(t[0], 10);
    }
  }

  lemma SuffixLast(n: nat)
    ensures var s := CountSuffix(n); |s| > 0 && (s[|s| - 1] == 's' <==> n != 1)
  {
    if n == 1 {
      assert CountSuffix(n) == " evento encontrado";
    } else {
      assert CountSuffix(n) == " eventos encontrados";
    }
  }

  lemma LastOfConcat(a: string, b: string)
    requires b != []
    ensures (a + b)[|a + b| - 1] == b[|b| - 1]
  {
  }

  /** The line is in the plural exactly when the count is not one. */
  lemma CountTextPlural(n: nat)
    ensures var t := CountText(n); t[|t| - 1] == 's' <==> n != 1
  {
    if n > 0 {
      SuffixLast(n);
      LastOfConcat(NatToString(n), CountSuffix(n));
    } else {
      var t := "No se encontraron eventos";
      assert t[|t| - 1] == 's';
    }
  }

  // ---------------------------------------------------- the stale index render

  /** `slides[activeIndex]` as the component reads it: undefined (None) past the end. */
  function SlideAt(slides: seq<Evento>, i: int): Option<Evento> {
    if 0 <= i < |slides| then Some(slides[i]) else None
  }

  /** The slide the overlay can always show: the one at the index while it is in range, the
      first slide otherwise, which is where the search reset takes the index anyway. */
  function ShownSlide(slides: seq<Evento>, i: int): (e: Evento)
    requires |slides| >= 1
    ensures e in slides
    ensures SlideAt(slides, i).Some? ==> e == SlideAt(slides, i).value
    ensures SlideAt(slides, i).None? ==> e == slides[0]
  {
    if 0 <= i < |slides| then slides[i] else slides[0]
  }

  function SampleEvent(id: int, titulo: string): Evento {
    Evento(id, titulo, "", "", "", "")
  }

  /**
    * The search reset runs after the render that sees the new term, so that render still
    * uses the old index. Two events titled "x" and "y", the carousel on the second, and the
    * term "x": the render reads `slides[1]` of a single slide, which is undefined.
    */
  lemma StaleIndexAfterSearch()
    ensures var es := [SampleEvent(1, "x"), SampleEvent(2, "y")];
            && SlideAt(Slides(es, ""), 1).Some?
            && SlideAt(Slides(es, "x"), 1).None?
  {
    var es := [SampleEvent(1, "x"), SampleEvent(2, "y")];
    EmptyTermKeepsAll(es);
    assert ToLower("x") == "x";
    assert ToLower("y") == "y";
    assert ToLower("") == "";
    IncludesIff("x", "x", 0);
    assert Matches(es[0], "x");
    NoneBefore("y", "x", 1);
    assert "y"[..1] == "y";
    assert !Includes("", "x");
    assert !Matches(es[1], "x");
    var p := e => Matches(e, "x");
    assert es[..1][..0] == [];
    assert Seqs.Filter(es[..1], p) == [es[0]];
    assert Seqs.Filter(es, p) == [es[0]];
  }

  // ------------------------------------------------------------ the component

  /** The component's state: its props and the active index. */
  class Carousel {
    var eventos: seq<Evento>
    var searchTerm: string
    var activeIndex: int

    function CurrentSlides(): (r: seq<Evento>)
      reads this
      ensures |r| >= 1
    {
      Slides(eventos, searchTerm)
    }

    /** The active index points at a slide. */
    predicate Valid()
      reads this
    {
      0 <= activeIndex < |CurrentSlides()|
    }

    constructor (es: seq<Evento>, term: string)
      ensures eventos == es && searchTerm == term && activeIndex == 0 && Valid()
    {
      eventos := es;
      searchTerm := term;
      activeIndex := 0;
    }

    method GoToNext()
      requires Valid()
      modifies this
      ensures activeIndex == Next(old(activeIndex), |CurrentSlides()|)
      ensures eventos == old(eventos) && searchTerm == old(searchTerm) && Valid()
    {
      activeIndex := Next(activeIndex, |Slides(eventos, searchTerm)|);
    }

    method GoToPrev()
      requires Valid()
      modifies this
      ensures activeIndex == Prev(old(activeIndex), |CurrentSlides()|)
      ensures eventos == old(eventos) && searchTerm == old(searchTerm) && Valid()
    {
      activeIndex := Prev(activeIndex, |Slides(eventos, searchTerm)|);
    }

    /** A click on a card or on a dot makes that slide the active one. */
    method Select(index: int)
      requires 0 <= index < |CurrentSlides()|
      modifies this
      ensures activeIndex == index
      ensures eventos == old(eventos) && searchTerm == old(searchTerm) && Valid()
    {
      activeIndex := index;
    }

    /** A new search term: the overlay renders once with the old index, then the reset effect
        sets the index to zero. `shown` is the slide of that render, through ShownSlide. */
    method Search(term: string) returns (shown: Evento)
      modifies this
      ensures searchTerm == term && eventos == old(eventos) && activeIndex == 0 && Valid()
      ensures shown == ShownSlide(Slides(old(eventos), term), old(activeIndex))
    {
      searchTerm := term;
      shown := ShownSlide(Slides(eventos, searchTerm), activeIndex);
      activeIndex := 0;
    }
  }
}
