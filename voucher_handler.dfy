/**
 * The seller's voucher handlers of `services/seller/voucher_handler.go`:
 * the type check, create, overwrite, and the listing that reads the rows
 * one at a time.
 */
module VoucherHandler {
  import opened Wrappers
  import opened Http
  import opened Text
  import opened Store

  const InvalidInput := "Bad Request: Invalid input data"

  /**
   * `isValidType`: the three codes, spelled with the letter O. The field's
   * comment writes them with a zero (V0S, V0M, V0C); those are refused.
   */
  predicate IsValidType(t: string): (b: bool)
    ensures b <==> |t| == 3 && t[..2] == "VO" && t[2] in {'S', 'M', 'C'}
  {
    t == "VOS" || t == "VOM" || t == "VOC"
  }

  lemma ZeroSpellingRefused()
    ensures !IsValidType("V0S") && !IsValidType("V0M") && !IsValidType("V0C")
    ensures IsValidType("VOS") && IsValidType("VOM") && IsValidType("VOC")
  {
  }

  /** Every accepted type is three ASCII letters starting "VO". */
  lemma ValidTypeShape(t: string)
    requires IsValidType(t)
    ensures |t| == 3 && t[0] == 'V' && t[1] == 'O' && t[2] in {'S', 'M', 'C'}
    ensures ByteLen(t) == 3
  {
    ByteLenAscii(t);
  }

  /** The field check of `postVoucher` and `putVoucher`; lengths are UTF-8 bytes. */
  predicate InvalidFields(v: Voucher): (b: bool)
    ensures !b ==> 2 <= |v.name| && |v.description| < 200 && |v.voucherType| == 3
  {
    ByteLen(v.name) <= 5 || ByteLen(v.description) >= 200 || !IsValidType(v.voucherType)
  }

  /** Neither the status nor the percentage is checked: any value of either passes. */
  lemma StatusAndPercentageUnchecked(v: Voucher, status: string, percentage: real)
    ensures InvalidFields(v.(status := status, discountPercentage := percentage)) == InvalidFields(v)
  {
  }

  lemma AppendKeepsVouchersOk(vs: seq<Voucher>, v: Voucher)
    requires VouchersOk(vs) && v.id !in VoucherIds(vs)
    ensures VouchersOk(vs + [v])
  {
    assert forall i :: 0 <= i < |vs| ==> vs[i].id in VoucherIds(vs);
  }

  /** `postVoucher`: checks the fields, then inserts the voucher under a fresh id (`uuid.New`). */
  method PostVoucher(db: Database, voucher: Voucher, freshId: string, fault: Fault) returns (r: Response<Voucher>)
    requires db.Valid()
    requires freshId !in VoucherIds(db.vouchers)
    modifies db`vouchers
    ensures db.Valid()
    ensures r == Failed(400, InvalidInput) <==> InvalidFields(voucher)
    ensures !InvalidFields(voucher) && fault.Fails(1) ==> r == Failed(500, Internal)
    ensures r.Succeeded() <==> !InvalidFields(voucher) && !fault.Fails(1)
    ensures r.Succeeded() ==>
      r.data == Some(voucher.(id := freshId)) && db.vouchers == old(db.vouchers) + [voucher.(id := freshId)]
    ensures !r.Succeeded() ==> db.vouchers == old(db.vouchers)
  {
    if InvalidFields(voucher) {
      return Failed(400, InvalidInput);
    }
    var created := voucher.(id := freshId);
    // INSERT INTO vouchers (id, name, description, type, status, discount_percentage) VALUES (...)
    if fault.Fails(1) {
      return Failed(500, Internal);
    }
    AppendKeepsVouchersOk(db.vouchers, created);
    db.vouchers := db.vouchers + [created];
    return Ok(created);
  }

  /** `UPDATE vouchers SET name, description, type, status, discount_percentage where id=@id`. */
  function Overwrite(vs: seq<Voucher>, v: Voucher): (r: seq<Voucher>)
    ensures |r| == |vs|
    ensures forall k :: 0 <= k < |vs| ==> r[k] == if vs[k].id == v.id then v else vs[k]
  {
    if vs == [] then []
    else [if vs[0].id == v.id then v else vs[0]] + Overwrite(vs[1..], v)
  }

  /** Overwriting by id is idempotent: sending the same voucher twice is sending it once. */
  lemma {:induction false} OverwriteIdempotent(vs: seq<Voucher>, v: Voucher)
    ensures Overwrite(Overwrite(vs, v), v) == Overwrite(vs, v)
  {
    var once := Overwrite(vs, v);
    var twice := Overwrite(once, v);
    assert forall k :: 0 <= k < |vs| ==> twice[k] == once[k];
  }

  /** Afterwards the voucher reads back exactly as sent, when its id was in the table. */
  lemma OverwriteReadsBack(vs: seq<Voucher>, v: Voucher)
    requires v.id in VoucherIds(vs)
    ensures v in Overwrite(vs, v)
  {
    var k :| 0 <= k < |vs| && vs[k].id == v.id;
    assert Overwrite(vs, v)[k] == v;
  }

  /**
   * `putVoucher`: checks the fields, then overwrites the row with the
   * voucher's id. The id is not checked, and an id that names no row is
   * still a success.
   */
  method PutVoucher(db: Database, voucher: Voucher, fault: Fault) returns (r: Response<Voucher>)
    requires db.Valid()
    modifies db`vouchers
    ensures db.Valid()
    ensures r == Failed(400, InvalidInput) <==> InvalidFields(voucher)
    ensures !InvalidFields(voucher) && fault.Fails(1) ==> r == Failed(500, Internal)
    ensures r.Succeeded() <==> !InvalidFields(voucher) && !fault.Fails(1)
    ensures r.Succeeded() ==> r.data == Some(voucher) && db.vouchers == Overwrite(old(db.vouchers), voucher)
    ensures !r.Succeeded() ==> db.vouchers == old(db.vouchers)
  {
    if InvalidFields(voucher) {
      return Failed(400, InvalidInput);
    }
    if fault.Fails(1) {
      return Failed(500, Internal);
    }
    var updated := Overwrite(db.vouchers, voucher);
    assert forall k :: 0 <= k < |updated| ==> updated[k].id == db.vouchers[k].id;
    db.vouchers := updated;
    return Ok(voucher);
  }

  /**
   * How the cursor of `getAllVoucher` behaves: it yields the first
   * `delivered` rows and then stops, whether the table ran out or the stream
   * broke; the scan of row `scanFailsAt`, if any, fails.
   */
  datatype Cursor = Cursor(delivered: nat, scanFailsAt: Option<nat>)

  /** The columns `getAllVoucher` selects: the type is not among them and stays empty. */
  function Listed(v: Voucher): (r: Voucher)
    ensures r.id == v.id && r.name == v.name && r.description == v.description
    ensures r.status == v.status && r.discountPercentage == v.discountPercentage
    ensures r.voucherType == ""
  {
    v.(voucherType := "")
  }

  /** The rows the cursor yields before it stops. */
  function Yielded(vs: seq<Voucher>, cursor: Cursor): (n: nat)
    ensures n <= |vs| && n <= cursor.delivered
    ensures n == |vs| || n == cursor.delivered
  {
    if cursor.delivered < |vs| then cursor.delivered else |vs|
  }

  /**
   * `getAllVoucher`: reads the rows until the cursor stops. A failing query or
   * a failing scan is a 500; a stream that breaks early is not noticed, and
   * the rows read so far are a success.
   */
  method GetAllVoucher(db: Database, fault: Fault, cursor: Cursor) returns (r: Response<seq<Voucher>>)
    ensures fault.Fails(1) ==> r == Failed(500, Internal)
    ensures var n := Yielded(db.vouchers, cursor);
      !fault.Fails(1) && cursor.scanFailsAt.Some? && cursor.scanFailsAt.value < n ==> r == Failed(500, Internal)
    ensures r.Succeeded() <==>
      !fault.Fails(1) && (cursor.scanFailsAt.Some? ==> cursor.scanFailsAt.value >= Yielded(db.vouchers, cursor))
    ensures r.Succeeded() ==> r.data.Some? && var listed := r.data.value;
      && |listed| == Yielded(db.vouchers, cursor)
      && forall k :: 0 <= k < |listed| ==> listed[k] == Listed(db.vouchers[k])
  {
    // SELECT id, name, description, status, discount_percentage, created_at, updated_at FROM vouchers
    if fault.Fails(1) {
      return Failed(500, Internal);
    }
    var n := Yielded(db.vouchers, cursor);
    var vouchers: seq<Voucher> := [];
    var i := 0;
    while i < n
      invariant 0 <= i <= n
      invariant |vouchers| == i
      invariant forall k :: 0 <= k < i ==> vouchers[k] == Listed(db.vouchers[k])
      invariant cursor.scanFailsAt.Some? ==> cursor.scanFailsAt.value >= i
    {
      if cursor.scanFailsAt == Some(i) {
        return Failed(500, Internal);
      }
      vouchers := vouchers + [Listed(db.vouchers[i])];
      i := i + 1;
    }
    // rows.Err() is never consulted
    return Ok(vouchers);
  }
}
