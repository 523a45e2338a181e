/**
 * The static scope catalog of the front end: four ordered categories of scope tiles,
 * and the scope grid's rule for showing a tile as active.
 */
module ScopeCatalog {
  import opened StringOrder

  /** One atomic unit of proposed project scope. */
  datatype ScopeTile = ScopeTile(id: string, name: string)

  /** A named, ordered group of tiles, in display order. */
  datatype ScopeCategory = ScopeCategory(name: string, tiles: seq<ScopeTile>)

  /** The catalog, in display order. */
  const Categories: seq<ScopeCategory> := [
    ScopeCategory("Finance", [
      ScopeTile("FIN-MDM", "Master Data Management"),
      ScopeTile("FIN-CTRL", "Controllership (e.g., Accounting, Product Costing)"),
      ScopeTile("FIN-FPA", "Financial Planning, Budgeting and Forecasting"),
      ScopeTile("FIN-TCM", "Treasury and Cash Management"),
      ScopeTile("FIN-P2P", "Procure-to-Pay")
    ]),
    ScopeCategory("Supply Chain and Logistics", [
      ScopeTile("SCM-DPF", "Demand Planning And Forecasting"),
      ScopeTile("SCM-IM", "Inventory Management"),
      ScopeTile("SCM-WMS", "Warehouse and Distribution Operations"),
      ScopeTile("SCM-TRA", "Transportation and Logistics")
    ]),
    ScopeCategory("Operations", [
      ScopeTile("OPS-PP", "Production Planning"),
      ScopeTile("OPS-EXEC", "Manufacturing Execution"),
      ScopeTile("OPS-QM", "Quality Management"),
      ScopeTile("OPS-PM", "Asset and Plant Maintenance")
    ]),
    ScopeCategory("Customer Order Management", [
      ScopeTile("COM-ATP", "Available-to-Promise"),
      ScopeTile("COM-OM", "Order Fullfillment & Management"),
      ScopeTile("COM-INV", "Invoice Management (including e-invoice)"),
      ScopeTile("COM-RAR", "Revenue Recognition & Reporting (RAR)")
    ])
  ]

  /** The id prefix that every tile of the category at the same position carries. */
  const IdPrefixes: seq<string> := ["FIN-", "SCM-", "OPS-", "COM-"]

  /** The ids of the given tiles, in order. */
  function Ids(tiles: seq<ScopeTile>): (r: seq<string>)
    ensures |r| == |tiles|
    ensures forall k :: 0 <= k < |tiles| ==> r[k] == tiles[k].id
  {
    if tiles == [] then [] else [tiles[0].id] + Ids(tiles[1..])
  }

  /** Every tile id of the catalog, category by category, in display order. */
  function AllTileIds(cats: seq<ScopeCategory>): (r: seq<string>)
  {
    if cats == [] then [] else Ids(cats[0].tiles) + AllTileIds(cats[1..])
  }

  /** An id belongs to the flattened catalog exactly when some category holds a tile with it. */
  lemma {:induction false} AllTileIdsMembership(cats: seq<ScopeCategory>, id: string)
    ensures id in AllTileIds(cats) <==>
            exists c, t :: 0 <= c < |cats| && t in cats[c].tiles && t.id == id
  {
    if cats != [] {
      AllTileIdsMembership(cats[1..], id);
      if id in Ids(cats[0].tiles) {
        var k :| 0 <= k < |cats[0].tiles| && Ids(cats[0].tiles)[k] == id;
        assert cats[0].tiles[k] in cats[0].tiles;
      }
      forall c, t | 0 <= c < |cats| && t in cats[c].tiles && t.id == id
        ensures id in AllTileIds(cats)
      {
        if c == 0 {
          var k :| 0 <= k < |cats[0].tiles| && cats[0].tiles[k] == t;
          assert Ids(cats[0].tiles)[k] == id;
        } else {
          assert cats[1..][c - 1] == cats[c];
        }
      }
    }
  }

  /** The four categories, in display order. */
  lemma CategoryOrder()
    ensures |Categories| == 4
    ensures Categories[0].name == "Finance"
    ensures Categories[1].name == "Supply Chain and Logistics"
    ensures Categories[2].name == "Operations"
    ensures Categories[3].name == "Customer Order Management"
    ensures forall i, j :: 0 <= i < j < |Categories| ==> Categories[i].name != Categories[j].name
  {
  }

  /** Category sizes 5, 4, 4, 4: seventeen tiles in all. */
  lemma CategorySizes()
    ensures |Categories[0].tiles| == 5 && |Categories[1].tiles| == 4
    ensures |Categories[2].tiles| == 4 && |Categories[3].tiles| == 4
    ensures |AllTileIds(Categories)| == 17
  {
    AllTileIdsOfFour(Categories);
  }

  /** Each tile id starts with its category's prefix. */
  lemma TilePrefixesMatchCategories()
    ensures |IdPrefixes| == |Categories|
    ensures forall c, t :: 0 <= c < |Categories| && t in Categories[c].tiles ==> IdPrefixes[c] <= t.id
  {
  }

  /** No tile id occurs twice in the catalog. */
  lemma TileIdsUnique()
    ensures NoDuplicates(AllTileIds(Categories))
  {
    CatalogIds();
    CatalogIdListUnique();
  }

  /** The seventeen catalog ids, written out in display order. */
  const CatalogIdList: seq<string> :=
    ["FIN-MDM", "FIN-CTRL", "FIN-FPA", "FIN-TCM", "FIN-P2P",
     "SCM-DPF", "SCM-IM", "SCM-WMS", "SCM-TRA",
     "OPS-PP", "OPS-EXEC", "OPS-QM", "OPS-PM",
     "COM-ATP", "COM-OM", "COM-INV", "COM-RAR"]

  lemma CatalogIdListUnique()
    ensures NoDuplicates(CatalogIdList)
  {
  }

  lemma CatalogIds()
    ensures AllTileIds(Categories) == CatalogIdList
  {
    AllTileIdsOfFour(Categories);
    FinanceIds();
    SupplyChainIds();
    OperationsIds();
    OrderManagementIds();
    FourSlices(CatalogIdList, 5, 9, 13);
  }

  lemma FourSlices<T>(s: seq<T>, a: nat, b: nat, c: nat)
    requires a <= b <= c <= |s|
    ensures s == s[..a] + (s[a..b] + (s[b..c] + s[c..]))
  {
    assert s[b..] == s[b..c] + s[c..];
    assert s[a..] == s[a..b] + s[b..];
    assert s == s[..a] + s[a..];
  }

  lemma AllTileIdsOfFour(cats: seq<ScopeCategory>)
    requires |cats| == 4
    ensures AllTileIds(cats) == Ids(cats[0].tiles) + (Ids(cats[1].tiles) + (Ids(cats[2].tiles) + Ids(cats[3].tiles)))
  {
    assert AllTileIds(cats[3..]) == Ids(cats[3].tiles) by {
      assert cats[3..][1..] == [];
      assert Ids(cats[3].tiles) + [] == Ids(cats[3].tiles);
    }
    assert AllTileIds(cats[2..]) == Ids(cats[2].tiles) + AllTileIds(cats[3..]) by {
      assert cats[2..][1..] == cats[3..];
    }
    assert AllTileIds(cats[1..]) == Ids(cats[1].tiles) + AllTileIds(cats[2..]) by {
      assert cats[1..][1..] == cats[2..];
    }
  }

  lemma FinanceIds()
    ensures Ids(Categories[0].tiles) == CatalogIdList[..5]
  {
  }

  lemma SupplyChainIds()
    ensures Ids(Categories[1].tiles) == CatalogIdList[5..9]
  {
  }

  lemma OperationsIds()
    ensures Ids(Categories[2].tiles) == CatalogIdList[9..13]
  {
  }

  lemma OrderManagementIds()
    ensures Ids(Categories[3].tiles) == CatalogIdList[13..]
  {
  }

  /** The scope grid shows a tile as active exactly when its id is among the activated tiles. */
  function IsActive(tile: ScopeTile, activated: seq<string>): (active: bool)
    ensures active <==> exists k :: 0 <= k < |activated| && activated[k] == tile.id
  {
    tile.id in activated
  }
}
