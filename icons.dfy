/**
 * Icon references and the fixed icon catalog shown in the icon list.
 * An icon is identified by its image path; two icons are the same exactly when
 * their paths are equal.
 */
module Icons {
  import opened Wrappers

  /** An icon reference: the path of an image. */
  type Icon = string

  /** The image an empty cell shows. */
  const DEFAULT_ICON: Icon := "icons/Icon_Default.png"

  /** Number of entries in the icon list. */
  const CATALOG_SIZE: nat := 9

  /** The image of catalog entry `n` (1 to 9): "icons/Icon_0<n>.png". */
  function CatalogIcon(n: nat): (icon: Icon)
    requires 1 <= n <= CATALOG_SIZE
  {
    "icons/Icon_0" + [('0' as int + n) as char] + ".png"
  }

  /** The icon list, in the order it is built: entry k holds icon number k + 1. */
  const Catalog: seq<Icon> := [
    CatalogIcon(1), CatalogIcon(2), CatalogIcon(3), CatalogIcon(4), CatalogIcon(5),
    CatalogIcon(6), CatalogIcon(7), CatalogIcon(8), CatalogIcon(9)
  ]

  /** The icons a cell can ever hold: the default or a catalog icon. */
  predicate IsKnownIcon(icon: Icon) {
    icon == DEFAULT_ICON || icon in Catalog
  }

  /** JavaScript truthiness of a nullable string: neither null nor the empty string. */
  predicate Truthy(src: Option<Icon>) {
    src.Some? && src.value != ""
  }

  /**
   * Every catalog icon is distinct from the default, so a cell holding one is
   * draggable, and it is a truthy drag source.
   */
  lemma CatalogIconsDraggable()
    ensures |Catalog| == CATALOG_SIZE
    ensures forall k :: 0 <= k < |Catalog| ==> Catalog[k] != DEFAULT_ICON && Truthy(Some(Catalog[k]))
  {
  }

  /**
   * The nine catalog entries are nine different icons, so the picker offers
   * nine different choices and a swap of two catalog icons is visible.
   */
  lemma CatalogDistinct()
    ensures forall j, k :: 0 <= j < k < |Catalog| ==> Catalog[j] != Catalog[k]
  {
    forall j, k | 0 <= j < k < |Catalog|
      ensures Catalog[j] != Catalog[k]
    {
      assert Catalog[j][12] == ('0' as int + j + 1) as char;
      assert Catalog[k][12] == ('0' as int + k + 1) as char;
    }
  }
}
