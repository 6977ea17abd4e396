/** The phone catalog endpoints (backend/API/PhonesAPI.cs): list, add, delete
    and partial update over the SQLite `Phones` table, which becomes a map
    from PhoneID to row. */
module PhonesApi {
  import opened Wrappers

  /** One row of the `Phones` table (Shared.Models.PhoneModel). The C#
      `decimal` price is exact, so it is a `real`. */
  datatype Phone = Phone(
    phoneId: int,
    brand: string,
    model: string,
    price: real,
    description: string,
    condition: string,
    stockQuantity: int)

  /** The body of a partial update (UpdatePhoneModel, PhonesAPI.cs:260-268):
      every field may be null. */
  datatype UpdatePhoneModel = UpdatePhoneModel(
    brand: Option<string>,
    model: Option<string>,
    price: Option<real>,
    description: Option<string>,
    condition: Option<string>,
    stockQuantity: Option<int>)

  /** `Results.Ok(phone)`, `Results.Created(.., phone)`, `Results.Ok(message)`,
      `Results.BadRequest` and `Results.NotFound`. */
  datatype Response = OkPhone(phone: Phone) | Created(phone: Phone) | Ok | BadRequest | NotFound

  /** The `Phones` table by PhoneID, and the rowid SQLite hands out next. */
  datatype PhoneDb = PhoneDb(rows: map<int, Phone>, nextPhoneId: int)

  /** Every row sits under its own PhoneID, and every PhoneID is positive and
      below the next one to be handed out. */
  ghost predicate WellFormed(db: PhoneDb)
  {
    && db.nextPhoneId >= 1
    && forall id :: id in db.rows ==> db.rows[id].phoneId == id && 1 <= id < db.nextPhoneId
  }

  /** The check AddPhone makes before inserting (PhonesAPI.cs:80). A null
      Brand or Model is an empty string here: both are refused alike. */
  predicate IsValidNewPhone(phone: Phone)
  {
    phone.brand != "" && phone.model != "" && phone.price > 0.0 && phone.stockQuantity > 0
  }

  /** The check UpdatePhonePartial makes after merging (PhonesAPI.cs:224). */
  predicate IsValidUpdatedPhone(phone: Phone)
  {
    phone.price > 0.0 && phone.stockQuantity >= 0
  }

  /** The field merge of PhonesAPI.cs:216-221: `updated.F ?? phone.F` per field. */
  function Merge(phone: Phone, updated: UpdatePhoneModel): (merged: Phone)
    ensures merged.phoneId == phone.phoneId
  {
    phone.(
      brand := Coalesce(updated.brand, phone.brand),
      model := Coalesce(updated.model, phone.model),
      price := Coalesce(updated.price, phone.price),
      description := Coalesce(updated.description, phone.description),
      condition := Coalesce(updated.condition, phone.condition),
      stockQuantity := Coalesce(updated.stockQuantity, phone.stockQuantity))
  }

  /** The update that sets no field. */
  const NoChange := UpdatePhoneModel(None, None, None, None, None, None)

  /** Each field takes the update's value when it is given and keeps the
      stored one when it is null. */
  lemma MergeFieldwise(phone: Phone, updated: UpdatePhoneModel)
    ensures var m := Merge(phone, updated);
            && (updated.brand.Some? ==> m.brand == updated.brand.value)
            && (updated.brand.None? ==> m.brand == phone.brand)
            && (updated.model.Some? ==> m.model == updated.model.value)
            && (updated.model.None? ==> m.model == phone.model)
            && (updated.price.Some? ==> m.price == updated.price.value)
            && (updated.price.None? ==> m.price == phone.price)
            && (updated.description.Some? ==> m.description == updated.description.value)
            && (updated.description.None? ==> m.description == phone.description)
            && (updated.condition.Some? ==> m.condition == updated.condition.value)
            && (updated.condition.None? ==> m.condition == phone.condition)
            && (updated.stockQuantity.Some? ==> m.stockQuantity == updated.stockQuantity.value)
            && (updated.stockQuantity.None? ==> m.stockQuantity == phone.stockQuantity)
  {
  }

  /** An all-null update changes nothing. */
  lemma MergeNoChangeIsIdentity(phone: Phone)
    ensures Merge(phone, NoChange) == phone
  {
  }

  /** Applying the same update twice is applying it once. */
  lemma MergeIdempotent(phone: Phone, updated: UpdatePhoneModel)
    ensures Merge(Merge(phone, updated), updated) == Merge(phone, updated)
  {
  }

  /** `after` holds the rows of `before` except row `id`, which it replaces with
      `row` (or adds, when `id` was absent). */
  ghost predicate ReplacesOnlyRow(before: map<int, Phone>, after: map<int, Phone>, id: int, row: Phone)
  {
    && after.Keys == before.Keys + {id}
    && after[id] == row
    && (forall k :: k in before && k != id ==> after[k] == before[k])
  }

  /** AddPhone (PhonesAPI.cs:77-128) as a function of the table. */
  ghost function AddStep(db: PhoneDb, phone: Phone): (s: Step<Response, PhoneDb>)
    requires WellFormed(db)
    ensures WellFormed(s.state)
    ensures !IsValidNewPhone(phone) ==> s == Step(BadRequest, db)
    ensures IsValidNewPhone(phone) ==>
      && s.response.Created?
      && var added := s.response.phone;
      && added.phoneId !in db.rows
      && added == phone.(phoneId := added.phoneId)
      && ReplacesOnlyRow(db.rows, s.state.rows, added.phoneId, added)
  {
    if !IsValidNewPhone(phone) then
      Step(BadRequest, db)
    else
      var id := db.nextPhoneId;
      var added := phone.(phoneId := id);
      Step(Created(added), PhoneDb(db.rows[id := added], id + 1))
  }

  /** DeletePhone (PhonesAPI.cs:131-170) as a function of the table. */
  ghost function DeleteStep(db: PhoneDb, id: int): (s: Step<Response, PhoneDb>)
    requires WellFormed(db)
    ensures WellFormed(s.state)
    ensures id <= 0 ==> s == Step(BadRequest, db)
    ensures id > 0 && id !in db.rows ==> s == Step(NotFound, db)
    ensures id > 0 && id in db.rows ==>
      && s.response == Ok
      && s.state.rows.Keys == db.rows.Keys - {id}
      && (forall k :: k in s.state.rows ==> s.state.rows[k] == db.rows[k])
  {
    if id <= 0 then
      Step(BadRequest, db)
    else if id !in db.rows then
      // `DELETE ... WHERE PhoneID = @id` removed no row
      Step(NotFound, db)
    else
      Step(Ok, db.(rows := db.rows - {id}))
  }

  /** UpdatePhonePartial (PhonesAPI.cs:176-254) as a function of the table.
      A null body is `None`. */
  ghost function UpdateStep(db: PhoneDb, id: int, updatedFields: Option<UpdatePhoneModel>): (s: Step<Response, PhoneDb>)
    requires WellFormed(db)
    ensures WellFormed(s.state)
    ensures updatedFields.None? ==> s == Step(BadRequest, db)
    ensures updatedFields.Some? && id !in db.rows ==> s == Step(NotFound, db)
    ensures updatedFields.Some? && id in db.rows ==>
      var merged := Merge(db.rows[id], updatedFields.value);
      if IsValidUpdatedPhone(merged) then
        && s.response == OkPhone(merged)
        && merged.phoneId == id
        && ReplacesOnlyRow(db.rows, s.state.rows, id, merged)
      else
        s == Step(BadRequest, db)
  {
    match updatedFields
    case None => Step(BadRequest, db)
    case Some(updated) =>
      if id !in db.rows then
        Step(NotFound, db)
      else
        var merged := Merge(db.rows[id], updated);
        if !IsValidUpdatedPhone(merged) then
          Step(BadRequest, db)
        else
          Step(OkPhone(merged), db.(rows := db.rows[id := merged]))
  }

  /** `list` is the whole table: each row exactly once, in some order (the
      SELECT has no ORDER BY). */
  ghost predicate ListsTable(list: seq<Phone>, rows: map<int, Phone>)
  {
    && (forall i :: 0 <= i < |list| ==> list[i].phoneId in rows && rows[list[i].phoneId] == list[i])
    && (forall i, j :: 0 <= i < j < |list| ==> list[i].phoneId != list[j].phoneId)
    && (forall id :: id in rows ==> exists i :: 0 <= i < |list| && list[i].phoneId == id)
  }

  /** A list that holds each row of the table exactly once is as long as the
      table. */
  lemma {:induction false} ListingSize(list: seq<Phone>, rows: map<int, Phone>)
    requires ListsTable(list, rows)
    ensures |list| == |rows|
  {
    if |list| == 0 {
      assert forall id :: id !in rows;
      assert rows.Keys == {};
    } else {
      var last := list[|list| - 1];
      var rest := list[..|list| - 1];
      var others := rows - {last.phoneId};
      forall id | id in others
        ensures exists i :: 0 <= i < |rest| && rest[i].phoneId == id
      {
        var i :| 0 <= i < |list| && list[i].phoneId == id;
        assert i < |rest| && rest[i] == list[i];
      }
      assert ListsTable(rest, others);
      ListingSize(rest, others);
      assert others.Keys == rows.Keys - {last.phoneId};
    }
  }

  /** The rows a scan in rowid order has read before reaching rowid `bound`. */
  ghost function RowsBelow(rows: map<int, Phone>, bound: int): seq<Phone>
    decreases bound
  {
    if bound <= 1 then []
    else RowsBelow(rows, bound - 1) + (if bound - 1 in rows then [rows[bound - 1]] else [])
  }

  /** Every row the scan has read is a row of the table, below `bound`. */
  lemma {:induction false} RowsBelowAreRows(rows: map<int, Phone>, bound: int)
    requires forall k :: k in rows ==> rows[k].phoneId == k
    ensures forall i :: 0 <= i < |RowsBelow(rows, bound)| ==>
              var p := RowsBelow(rows, bound)[i];
              p.phoneId in rows && rows[p.phoneId] == p && p.phoneId < bound
    decreases bound
  {
    if bound > 1 {
      RowsBelowAreRows(rows, bound - 1);
    }
  }

  /** The scan reads rows in strictly ascending PhoneID order. */
  lemma {:induction false} RowsBelowAscending(rows: map<int, Phone>, bound: int)
    requires forall k :: k in rows ==> rows[k].phoneId == k
    ensures forall i, j :: 0 <= i < j < |RowsBelow(rows, bound)| ==>
              RowsBelow(rows, bound)[i].phoneId < RowsBelow(rows, bound)[j].phoneId
    decreases bound
  {
    if bound > 1 {
      RowsBelowAscending(rows, bound - 1);
      RowsBelowAreRows(rows, bound - 1);
    }
  }

  /** Every row of the table with a positive PhoneID below `bound` has been read. */
  lemma {:induction false} RowsBelowComplete(rows: map<int, Phone>, bound: int)
    requires forall k :: k in rows ==> rows[k].phoneId == k
    ensures forall id :: id in rows && 1 <= id < bound ==>
              exists i :: 0 <= i < |RowsBelow(rows, bound)| && RowsBelow(rows, bound)[i].phoneId == id
    decreases bound
  {
    if bound > 1 {
      RowsBelowComplete(rows, bound - 1);
      var prev := RowsBelow(rows, bound - 1);
      var next := RowsBelow(rows, bound);
      assert next == prev + (if bound - 1 in rows then [rows[bound - 1]] else []);
      forall id | id in rows && 1 <= id < bound
        ensures exists i :: 0 <= i < |next| && next[i].phoneId == id
      {
        if id < bound - 1 {
          var i :| 0 <= i < |prev| && prev[i].phoneId == id;
          assert next[i] == prev[i];
        } else {
          assert next[|prev|] == rows[id];
        }
      }
      assert RowsBelow(rows, bound) == next;
    }
  }

  /** A scan past every PhoneID of a well-formed table lists the whole table,
      in ascending PhoneID order. */
  lemma ScanListsTable(db: PhoneDb)
    requires WellFormed(db)
    ensures ListsTable(RowsBelow(db.rows, db.nextPhoneId), db.rows)
    ensures forall i, j :: 0 <= i < j < |RowsBelow(db.rows, db.nextPhoneId)| ==>
              RowsBelow(db.rows, db.nextPhoneId)[i].phoneId < RowsBelow(db.rows, db.nextPhoneId)[j].phoneId
    ensures |RowsBelow(db.rows, db.nextPhoneId)| == |db.rows|
  {
    RowsBelowAreRows(db.rows, db.nextPhoneId);
    RowsBelowAscending(db.rows, db.nextPhoneId);
    RowsBelowComplete(db.rows, db.nextPhoneId);
    ListingSize(RowsBelow(db.rows, db.nextPhoneId), db.rows);
  }

  /** UpdatePhonePartial never refuses a non-positive id; such an id is
      simply not found. */
  lemma NonPositiveUpdateIdNotFound(db: PhoneDb, id: int, updated: UpdatePhoneModel)
    requires WellFormed(db) && id <= 0
    ensures UpdateStep(db, id, Some(updated)) == Step(NotFound, db)
  {
  }

  /** Validation is weaker after an update than on insert: a stored phone may
      be updated to an empty brand and zero stock, which AddPhone refuses. */
  lemma UpdateAcceptsWhatAddRefuses(db: PhoneDb, id: int)
    requires WellFormed(db) && id in db.rows && db.rows[id].price > 0.0
    ensures var s := UpdateStep(db, id, Some(NoChange.(brand := Some(""), stockQuantity := Some(0))));
            && s.response.OkPhone?
            && s.state.rows[id].brand == "" && s.state.rows[id].stockQuantity == 0
            && !IsValidNewPhone(s.state.rows[id])
  {
  }

  /** Deleting the phone just added gives back the table's rows. */
  lemma AddThenDelete(db: PhoneDb, phone: Phone)
    requires WellFormed(db) && IsValidNewPhone(phone)
    ensures var added := AddStep(db, phone);
            var deleted := DeleteStep(added.state, added.response.phone.phoneId);
            && deleted.response == Ok
            && deleted.state.rows == db.rows
  {
  }

  /** The `Phones` table of the running backend. */
  class PhoneTable {
    var phones: map<int, Phone>
    /** Stands for SQLite's rowid allocation, read back with `last_insert_rowid()`. */
    var nextPhoneId: int

    ghost function Db(): PhoneDb
      reads this
    {
      PhoneDb(phones, nextPhoneId)
    }

    ghost predicate Valid()
      reads this
    {
      WellFormed(Db())
    }

    /** An empty table. */
    constructor ()
      ensures Valid() && phones == map[]
    {
      phones := map[];
      nextPhoneId := 1;
    }

    /** GetPhones (PhonesAPI.cs:33-74): one list entry per row read, the rows
        read in rowid order as a scan of the table visits them. */
    method GetPhones() returns (list: seq<Phone>)
      requires Valid()
      ensures ListsTable(list, phones)
      ensures forall i, j :: 0 <= i < j < |list| ==> list[i].phoneId < list[j].phoneId
      ensures |list| == |phones|
    {
      list := [];
      var id := 1;
      while id < nextPhoneId
        invariant 1 <= id <= nextPhoneId
        invariant list == RowsBelow(phones, id)
      {
        if id in phones {
          list := list + [phones[id]];
        }
        id := id + 1;
      }
      assert list == RowsBelow(Db().rows, Db().nextPhoneId);
      ScanListsTable(Db());
    }

    /** AddPhone (PhonesAPI.cs:77-128). */
    method AddPhone(phone: Phone) returns (r: Response)
      requires Valid()
      modifies this
      ensures Valid()
      ensures Step(r, Db()) == AddStep(old(Db()), phone)
    {
      if phone.brand == "" || phone.model == "" || phone.price <= 0.0 || phone.stockQuantity <= 0 {
        return BadRequest;
      }
      var row := phone.(phoneId := nextPhoneId);
      phones := phones[nextPhoneId := row];
      var phoneId := nextPhoneId;
      nextPhoneId := nextPhoneId + 1;
      var created := phone;
      created := created.(phoneId := phoneId);
      r := Created(created);
    }

    /** DeletePhone (PhonesAPI.cs:131-170). */
    method DeletePhone(id: int) returns (r: Response)
      requires Valid()
      modifies this
      ensures Valid()
      ensures Step(r, Db()) == DeleteStep(old(Db()), id)
    {
      if id <= 0 {
        return BadRequest;
      }
      var deleted := if id in phones then 1 else 0;
      phones := phones - {id};
      if deleted == 0 {
        assert phones == old(phones);
        return NotFound;
      }
      r := Ok;
    }

    /** UpdatePhonePartial (PhonesAPI.cs:176-254): read the row, overwrite the
        fields the update gives, validate, write the row back. */
    method UpdatePhonePartial(id: int, updatedFields: Option<UpdatePhoneModel>) returns (r: Response)
      requires Valid()
      modifies this
      ensures Valid()
      ensures Step(r, Db()) == UpdateStep(old(Db()), id, updatedFields)
    {
      if updatedFields.None? {
        return BadRequest;
      }
      var updated := updatedFields.value;
      if id !in phones {
        return NotFound;
      }
      var phone := phones[id];
      phone := phone.(brand := Coalesce(updated.brand, phone.brand));
      phone := phone.(model := Coalesce(updated.model, phone.model));
      phone := phone.(price := Coalesce(updated.price, phone.price));
      phone := phone.(description := Coalesce(updated.description, phone.description));
      phone := phone.(condition := Coalesce(updated.condition, phone.condition));
      phone := phone.(stockQuantity := Coalesce(updated.stockQuantity, phone.stockQuantity));
      if phone.price <= 0.0 || phone.stockQuantity < 0 {
        return BadRequest;
      }
      phones := phones[id := phone];
      r := OkPhone(phone);
    }
  }
}
