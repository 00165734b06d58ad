/**
  Splicing a block of markup in front of every `</head>` of an HTML page, as
  both PDF builders do with `Regex.Replace(html, "</head>", block + "</head>")`.
*/
module HeadInjection {
  import opened TextReplace

  const HeadClose: string := "</head>"

  /** `</head>` cannot overlap itself: no proper suffix of it is a prefix of it. */
  lemma HeadCloseBorderless()
    ensures Borderless(HeadClose)
  {
    forall m | 0 < m < |HeadClose|
      ensures HeadClose[m..] != HeadClose[..|HeadClose| - m]
    {
      assert HeadClose[m..][0] == HeadClose[m] != '<';
      assert HeadClose[..|HeadClose| - m][0] == '<';
    }
  }

  /** Every `</head>` becomes `block` followed by `</head>`. */
  function InsertBeforeHeadClose(html: string, block: string): string {
    ReplaceAll(html, HeadClose, block + HeadClose)
  }

  /**
    The block lands in front of each `</head>` and nothing else changes: cut
    at its `</head>` tags, the page falls into pieces without one that the
    tags join back into the page, and the result joins the same pieces with
    `block + "</head>"`.
  */
  lemma BlockBeforeEveryHeadClose(html: string, block: string)
    ensures var parts := Pieces(html, HeadClose);
      && Join(parts, HeadClose) == html
      && (forall i :: 0 <= i < |parts| ==> !Occurs(parts[i], HeadClose))
      && InsertBeforeHeadClose(html, block) == Join(parts, block + HeadClose)
  {
    JoinPieces(html, HeadClose);
    PiecesClean(html, HeadClose);
    HeadCloseBorderless();
    ReplaceJoin(Pieces(html, HeadClose), HeadClose, block + HeadClose);
  }

  /** A page without `</head>` is left as it is. */
  lemma NoHeadCloseUnchanged(html: string, block: string)
    requires !Occurs(html, HeadClose)
    ensures InsertBeforeHeadClose(html, block) == html
  {
    ReplaceAbsent(html, HeadClose, block + HeadClose);
  }
}
