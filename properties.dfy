/**
 * Facts that tie the parts of the application together: the two status columns agree,
 * the two sign rules for ledger entries agree on well-formed input and part ways
 * otherwise, and a worked ledger example.
 */
module Properties {
  import opened Wrappers
  import opened Strings
  import opened Models
  import Admin
  import Views
  import ImportData

  /** The export's "Status" cell is the admin's status column. */
  lemma ExportStatusIsReorderStatus(item: Item, log: seq<Transaction>)
    ensures Views.ExportStatus(item, log) == Admin.ReorderStatus(item, log)
  {
  }

  /**
   * For a receipt or an issue of a non-negative quantity, the form and the importer
   * store the same signed quantity.
   */
  lemma SignRulesAgree(kind: string, n: int)
    requires kind == Receipt || kind == Issue
    requires n >= 0
    ensures Views.EntryQuantity(kind, n) == ImportData.ImportSignedQty(kind, n)
  {
  }

  /**
   * Elsewhere the two rules differ: the form stores a negative issue as a positive
   * quantity and any other type unchanged, while the importer makes both non-positive.
   */
  lemma SignRulesDiverge(kind: string, n: int)
    requires kind != Receipt
    requires (kind == Issue && n < 0) || (kind != Issue && n > 0)
    ensures Views.EntryQuantity(kind, n) > 0
    ensures ImportData.ImportSignedQty(kind, n) < 0
  {
  }

  /** A ledger entry against `item` dated 1 January 2025. */
  function Entry(item: Item, kind: string, qty: int): Transaction {
    Transaction(item.materialNo, Date(2025, 1, 1), "", kind, qty, "")
  }

  /**
   * Material 100126 opens at 50 with reorder level 10. A receipt of 20 brings it to 70
   * (available); an issue of 65 to 5, which needs a reorder; a further issue of 10 to -5,
   * which is out of stock. Deficit and surplus stay as they opened throughout.
   */
  lemma WorkedExample()
    ensures var item := Item(0, "100126", "Administration Folders", "PCS", 50, 50, 0, 10);
            var l1 := [Entry(item, Receipt, 20)];
            var l2 := l1 + [Entry(item, Issue, -65)];
            var l3 := l2 + [Entry(item, Issue, -10)];
            && CurrentBalance(item, l1) == 70 && Admin.ReorderStatus(item, l1) == Admin.Available
            && CurrentBalance(item, l2) == 5 && NeedsReorder(item, l2) && Admin.ReorderStatus(item, l2) == Admin.Reorder
            && CurrentBalance(item, l3) == -5 && Admin.ReorderStatus(item, l3) == Admin.OutOfStock
            && Deficit(item, l3) == 0 && Surplus(item, l3) == 0
  {
    var item := Item(0, "100126", "Administration Folders", "PCS", 50, 50, 0, 10);
    var l1 := [Entry(item, Receipt, 20)];
    var l2 := l1 + [Entry(item, Issue, -65)];
    var l3 := l2 + [Entry(item, Issue, -10)];
    var e := [];
    assert e + l1 == l1;
    AppendMovesBalance(item, e, Entry(item, Receipt, 20));
    assert CurrentBalance(item, l1) == 70;
    AppendMovesBalance(item, l1, Entry(item, Issue, -65));
    assert CurrentBalance(item, l2) == 5;
    AppendMovesBalance(item, l2, Entry(item, Issue, -10));
    assert CurrentBalance(item, l3) == -5;
  }
}
