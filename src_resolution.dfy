/**
 * Reading `img.src` back returns the image's URL resolved against the page's
 * base URL, not the string that was assigned. The grid-to-grid drop reads both
 * icons this way (`targetImg.src`, `srcImg.src`) and hands them to placeIcon,
 * which recognises an empty cell by comparing with the relative DEFAULT_ICON.
 * This module models that drop as written; the rest of the model compares
 * icons by path, the behaviour the code evidently intends.
 */
module SrcResolution {
  import opened Icons
  import opened Grid

  /** An absolute URL, as the page's base URL and every resolved `src` are. */
  predicate IsAbsoluteUrl(s: string) {
    "http://" <= s || "https://" <= s || "file://" <= s
  }

  /** The URL of the page's directory: absolute and ending in '/'. */
  predicate IsBaseUrl(base: string) {
    IsAbsoluteUrl(base) && |base| > 0 && base[|base| - 1] == '/'
  }

  /** The value `img.src` reads back after it was set to `src`, for a page whose directory URL is `base`. */
  function Resolved(base: string, src: Icon): (url: Icon)
    requires IsBaseUrl(base)
    ensures IsAbsoluteUrl(url)
    ensures IsAbsoluteUrl(src) ==> url == src
  {
    if IsAbsoluteUrl(src) then src else base + src
  }

  /**
   * Resolving an already resolved URL changes nothing: a catalog icon, whose
   * path was read back from its image, keeps that path however often it is
   * dragged, so only a relative path such as DEFAULT_ICON is altered by a drop.
   */
  lemma ResolvedIdempotent(base: string, src: Icon)
    requires IsBaseUrl(base)
    ensures Resolved(base, Resolved(base, src)) == Resolved(base, src)
  {
  }

  /** The relative default path is never an absolute URL, so resolving it changes it. */
  lemma DefaultIsRelative(base: string)
    requires IsBaseUrl(base)
    ensures !IsAbsoluteUrl(DEFAULT_ICON)
    ensures Resolved(base, DEFAULT_ICON) == base + DEFAULT_ICON != DEFAULT_ICON
  {
    assert DEFAULT_ICON[0] == 'i';
    assert |base + DEFAULT_ICON| > |DEFAULT_ICON|;
  }

  /**
   * A drop from cell `f` onto a different cell `t`, as the code is written: the
   * target's image is always found, so both cells are re-placed with the
   * resolved URLs read from their images.
   */
  function DropBetweenCellsAsWritten(base: string, cs: seq<Cell>, f: nat, t: nat): (r: seq<Cell>)
    requires IsBaseUrl(base) && f < |cs| && t < |cs| && f != t
    ensures |r| == |cs|
    ensures r[t].icon == Resolved(base, cs[f].icon) && r[f].icon == Resolved(base, cs[t].icon)
  {
    var temp := Resolved(base, cs[t].icon);
    Placed(Placed(cs, t, Resolved(base, cs[f].icon)), f, temp)
  }

  /**
   * As written, dragging a cell's icon onto an empty cell leaves the source cell
   * showing the default image under a path that placeIcon does not recognise as
   * DEFAULT_ICON, so that cell gets a drag handler and a remove button as if it
   * held an icon.
   */
  lemma VacatedCellNotEmptyAsWritten(base: string, cs: seq<Cell>, f: nat, t: nat)
    requires IsBaseUrl(base) && f < |cs| && t < |cs| && f != t
    requires cs[t].icon == DEFAULT_ICON
    ensures DropBetweenCellsAsWritten(base, cs, f, t)[f].icon == base + DEFAULT_ICON
    ensures DropBetweenCellsAsWritten(base, cs, f, t)[f].icon != DEFAULT_ICON
  {
    DefaultIsRelative(base);
  }

  /** The same drop on a concrete two-cell grid served from http://localhost/. */
  lemma VacatedCellExample()
    ensures
      var cs := [Cell(1, CatalogIcon(1)), Cell(2, DEFAULT_ICON)];
      DropBetweenCellsAsWritten("http://localhost/", cs, 0, 1)[0].icon != DEFAULT_ICON
  {
    var cs := [Cell(1, CatalogIcon(1)), Cell(2, DEFAULT_ICON)];
    assert IsBaseUrl("http://localhost/");
    VacatedCellNotEmptyAsWritten("http://localhost/", cs, 0, 1);
  }
}
