/**
 * app/api/contacts/route.ts: listing contacts with a tag and opt-out filter,
 * adding a batch of contacts while skipping phone numbers the store already
 * holds, and updating or deleting one contact by id. The `contacts` table is
 * a class whose rows the handlers change; each store call takes the store's
 * answer (success or error) as a parameter.
 */
module Contacts {
  import opened Wrappers
  import opened Records
  import opened Seqs

  const AuthRequired := "認証が必要です"
  const FetchFailed := "顧客の取得に失敗しました"
  const ContactsRequired := "顧客データが必要です"
  const AddFailed := "顧客の追加に失敗しました"
  const IdRequired := "IDが必要です"
  const UpdateFailed := "顧客の更新に失敗しました"
  const DeleteFailed := "顧客の削除に失敗しました"

  /** One element of the posted `contacts`; an absent phone number is the empty string. */
  datatype ContactInput = ContactInput(phoneNumber: string, name: Option<string>, tags: Option<seq<string>>)

  /** A row handed to `insert`. */
  datatype NewContact = NewContact(phoneNumber: string, name: Option<string>, tags: seq<string>)

  /** The fields a `PATCH` body may set; `None` leaves a field as it is. */
  datatype ContactUpdate = ContactUpdate(
    phoneNumber: Option<string>,
    name: Option<Option<string>>,
    tags: Option<seq<string>>,
    optedOut: Option<bool>)

  /** What a batch insert does: the generated ids and timestamp of the new rows, or an error. */
  datatype BatchReply = BatchInserted(ids: seq<string>, createdAt: string) | BatchRefused(error: DbError)

  datatype Payload =
    | ErrorPayload(error: string)
    | Counts(added: nat, duplicates: nat, total: nat)
    | Done
    | Listing(contacts: seq<Contact>)

  datatype Response = Response(status: int, payload: Payload)

  // ---------------------------------------------------------------------------
  // Listing

  /**
   * The `GET` query: a non-empty `tag` must be among the contact's tags, and
   * opted-out contacts appear only when `includeOptedOut` is the string 'true'.
   */
  predicate Listed(c: Contact, tag: Option<string>, includeOptedOut: Option<string>) {
    (tag.None? || tag.value == "" || tag.value in c.tags)
    && (includeOptedOut == Some("true") || !c.optedOut)
  }

  function Select(rows: seq<Contact>, tag: Option<string>, includeOptedOut: Option<string>): (r: seq<Contact>)
    ensures |r| <= |rows|
    ensures forall k :: 0 <= k < |r| ==> Listed(r[k], tag, includeOptedOut) && r[k] in rows
    ensures forall k :: 0 <= k < |rows| && Listed(rows[k], tag, includeOptedOut) ==> rows[k] in r
  {
    if rows == [] then []
    else (if Listed(rows[0], tag, includeOptedOut) then [rows[0]] else []) + Select(rows[1..], tag, includeOptedOut)
  }

  /** Without the parameters the listing is every contact that has not opted out. */
  lemma DefaultListing(rows: seq<Contact>, c: Contact)
    ensures c in Select(rows, None, None) <==> c in rows && !c.optedOut
  {
  }

  // ---------------------------------------------------------------------------
  // Adding

  /** `contacts.map(c => c.phone_number).filter(Boolean)`. */
  function BatchPhones(batch: seq<ContactInput>): (phones: seq<string>)
    ensures forall p :: p in phones <==> p != "" && exists k :: 0 <= k < |batch| && batch[k].phoneNumber == p
  {
    if batch == [] then []
    else
      var rest := BatchPhones(batch[1..]);
      assert forall k :: 0 <= k < |batch[1..]| ==> batch[1..][k] == batch[k + 1];
      (if batch[0].phoneNumber != "" then [batch[0].phoneNumber] else []) + rest
  }

  /**
   * `existingPhones`: the phone numbers of the batch that the store already
   * holds, or none at all when the read fails (`existing` is then null).
   */
  function ExistingPhones(rows: seq<Contact>, phones: seq<string>, readFailed: bool): (s: set<string>)
    ensures readFailed ==> s == {}
    ensures !readFailed ==> forall p :: p in s <==> p in phones && exists k :: 0 <= k < |rows| && rows[k].phoneNumber == p
  {
    if readFailed then {} else set k | 0 <= k < |rows| && rows[k].phoneNumber in phones :: rows[k].phoneNumber
  }

  predicate IsNew(c: ContactInput, existing: set<string>) {
    c.phoneNumber != "" && c.phoneNumber !in existing
  }

  /** The row inserted for a new contact: `name || null`, `tags || []`. */
  function ToRow(c: ContactInput): NewContact {
    NewContact(c.phoneNumber, OrNull(c.name), c.tags.GetOr([]))
  }

  /** `newContacts`: the new entries of the batch, in input order. */
  function NewContacts(batch: seq<ContactInput>, existing: set<string>): (r: seq<NewContact>)
    ensures |r| <= |batch|
  {
    if batch == [] then []
    else (if IsNew(batch[0], existing) then [ToRow(batch[0])] else []) + NewContacts(batch[1..], existing)
  }

  /** The entries skipped: an empty phone number, or one the store already has. */
  function CountSkipped(batch: seq<ContactInput>, existing: set<string>): nat {
    if batch == [] then 0
    else (if IsNew(batch[0], existing) then 0 else 1) + CountSkipped(batch[1..], existing)
  }

  /** Every entry is either added or counted as a duplicate. */
  lemma {:induction false} AddedPlusSkipped(batch: seq<ContactInput>, existing: set<string>)
    ensures |NewContacts(batch, existing)| + CountSkipped(batch, existing) == |batch|
  {
    if batch != [] {
      AddedPlusSkipped(batch[1..], existing);
    }
  }

  /** The rows inserted are exactly the new entries, mapped to rows, in order. */
  lemma {:induction false} NewContactsAre(batch: seq<ContactInput>, existing: set<string>, r: NewContact)
    ensures r in NewContacts(batch, existing) <==>
      exists k :: 0 <= k < |batch| && IsNew(batch[k], existing) && ToRow(batch[k]) == r
  {
    if batch != [] {
      NewContactsAre(batch[1..], existing, r);
      if r in NewContacts(batch[1..], existing) {
        var k :| 0 <= k < |batch[1..]| && IsNew(batch[1..][k], existing) && ToRow(batch[1..][k]) == r;
        assert batch[k + 1] == batch[1..][k];
      }
      if exists k :: 0 <= k < |batch| && IsNew(batch[k], existing) && ToRow(batch[k]) == r {
        var k :| 0 <= k < |batch| && IsNew(batch[k], existing) && ToRow(batch[k]) == r;
        if k > 0 {
          assert batch[1..][k - 1] == batch[k];
        }
      }
    }
  }

  /** The rows of a concatenated batch are those of its parts, in order. */
  lemma {:induction false} NewContactsAppend(a: seq<ContactInput>, b: seq<ContactInput>, existing: set<string>)
    ensures NewContacts(a + b, existing) == NewContacts(a, existing) + NewContacts(b, existing)
  {
    if a == [] {
      assert a + b == b;
    } else {
      var head := if IsNew(a[0], existing) then [ToRow(a[0])] else [];
      assert (a + b)[0] == a[0] && (a + b)[1..] == a[1..] + b;
      assert NewContacts(a + b, existing) == head + NewContacts(a[1..] + b, existing);
      NewContactsAppend(a[1..], b, existing);
      assert head + (NewContacts(a[1..], existing) + NewContacts(b, existing))
          == (head + NewContacts(a[1..], existing)) + NewContacts(b, existing);
    }
  }

  /** One entry yields its row when it is new and nothing otherwise. */
  lemma NewContactsOne(c: ContactInput, existing: set<string>)
    ensures NewContacts([c], existing) == if IsNew(c, existing) then [ToRow(c)] else []
  {
    assert [c][1..] == [];
  }

  /**
   * Only phones already stored are skipped: an entry repeated within the batch
   * is added every time it occurs, whatever the batch and the store.
   */
  lemma {:induction false} RepeatsWithinBatchAdded(batch: seq<ContactInput>, existing: set<string>, c: ContactInput)
    requires IsNew(c, existing)
    ensures Occurrences(NewContacts(batch, existing), ToRow(c)) >= Occurrences(batch, c)
  {
    if batch != [] {
      RepeatsWithinBatchAdded(batch[1..], existing, c);
      var rest := NewContacts(batch[1..], existing);
      if IsNew(batch[0], existing) {
        OccurrencesCons(ToRow(batch[0]), rest);
      } else {
        assert NewContacts(batch, existing) == rest;
      }
    }
  }

  /** The `contacts` table. */
  class ContactTable {
    var rows: seq<Contact>

    constructor (initial: seq<Contact>)
      ensures rows == initial
    {
      rows := initial;
    }

    /** `insert(newContacts)`: the rows are stored together with their generated ids, or not at all. */
    method Insert(news: seq<NewContact>, reply: BatchReply) returns (error: Option<DbError>)
      requires reply.BatchInserted? ==> |reply.ids| == |news|
      modifies this
      ensures reply.BatchRefused? ==> error == Some(reply.error) && rows == old(rows)
      ensures reply.BatchInserted? ==> error.None? && rows == old(rows) + StoredRows(news, reply.ids, reply.createdAt)
    {
      match reply
      case BatchRefused(e) =>
        error := Some(e);
      case BatchInserted(ids, createdAt) =>
        rows := rows + StoredRows(news, ids, createdAt);
        error := None;
    }

    /** `update(updates).eq('id', id)`. */
    method Update(id: string, updates: ContactUpdate, fault: Option<DbError>) returns (error: Option<DbError>)
      modifies this
      ensures error == fault
      ensures fault.Some? ==> rows == old(rows)
      ensures fault.None? ==> rows == Updated(old(rows), id, updates)
    {
      error := fault;
      if fault.None? {
        rows := Updated(rows, id, updates);
      }
    }

    /** `delete().eq('id', id)`. */
    method Delete(id: string, fault: Option<DbError>) returns (error: Option<DbError>)
      modifies this
      ensures error == fault
      ensures fault.Some? ==> rows == old(rows)
      ensures fault.None? ==> rows == Without(old(rows), id)
    {
      error := fault;
      if fault.None? {
        rows := Without(rows, id);
      }
    }
  }

  /** The stored form of inserted rows; a new contact starts opted in. */
  function StoredRows(news: seq<NewContact>, ids: seq<string>, createdAt: string): (r: seq<Contact>)
    requires |ids| == |news|
    ensures |r| == |news|
    ensures forall k :: 0 <= k < |news| ==>
      r[k] == Contact(ids[k], news[k].phoneNumber, news[k].name, news[k].tags, false, createdAt)
  {
    seq(|news|, k requires 0 <= k < |news| => Contact(ids[k], news[k].phoneNumber, news[k].name, news[k].tags, false, createdAt))
  }

  function Apply(c: Contact, u: ContactUpdate): Contact {
    c.(phoneNumber := u.phoneNumber.GetOr(c.phoneNumber),
       name := u.name.GetOr(c.name),
       tags := u.tags.GetOr(c.tags),
       optedOut := u.optedOut.GetOr(c.optedOut))
  }

  /** Every row with the id patched, every other row untouched. */
  function Updated(rows: seq<Contact>, id: string, u: ContactUpdate): (r: seq<Contact>)
    ensures |r| == |rows|
    ensures forall k :: 0 <= k < |rows| ==> r[k] == if rows[k].id == id then Apply(rows[k], u) else rows[k]
  {
    seq(|rows|, k requires 0 <= k < |rows| => if rows[k].id == id then Apply(rows[k], u) else rows[k])
  }

  /** The rows without the ones with the id, in order. */
  function Without(rows: seq<Contact>, id: string): (r: seq<Contact>)
    ensures |r| <= |rows|
    ensures forall k :: 0 <= k < |r| ==> r[k].id != id
    ensures forall c :: c in r <==> c in rows && c.id != id
  {
    if rows == [] then []
    else (if rows[0].id == id then [] else [rows[0]]) + Without(rows[1..], id)
  }

  // ---------------------------------------------------------------------------
  // Handlers

  /** `GET`; `fault` is the store's read error, if any. */
  function Get(authenticated: bool, tag: Option<string>, includeOptedOut: Option<string>,
               rows: seq<Contact>, fault: bool): (resp: Response)
    ensures !authenticated ==> resp == Response(401, ErrorPayload(AuthRequired))
    ensures authenticated && fault ==> resp == Response(500, ErrorPayload(FetchFailed))
    ensures authenticated && !fault ==>
      resp.status == 200 && resp.payload.Listing?
      && forall c :: c in resp.payload.contacts <==> c in rows && Listed(c, tag, includeOptedOut)
  {
    if !authenticated then Response(401, ErrorPayload(AuthRequired))
    else if fault then Response(500, ErrorPayload(FetchFailed))
    else Response(200, Listing(Select(rows, tag, includeOptedOut)))
  }

  /**
   * `POST`. `batch` is `None` when `contacts` is missing or not an array and
   * the body `None` when it is not JSON; `readFailed` says whether the lookup
   * of existing phone numbers fails, and `reply` is what the insert does.
   */
  method Post(authenticated: bool, body: Option<Option<seq<ContactInput>>>, readFailed: bool,
              reply: BatchReply, table: ContactTable)
    returns (resp: Response)
    requires body.Some? && body.value.Some? && reply.BatchInserted? ==>
      |reply.ids| == |NewContacts(body.value.value, ExistingPhones(table.rows, BatchPhones(body.value.value), readFailed))|
    modifies table
    ensures !authenticated ==> resp == Response(401, ErrorPayload(AuthRequired)) && table.rows == old(table.rows)
    ensures authenticated && body.None? ==> resp == Response(500, ErrorPayload(AddFailed)) && table.rows == old(table.rows)
    ensures authenticated && body.Some? && (body.value.None? || body.value.value == []) ==>
      resp == Response(400, ErrorPayload(ContactsRequired)) && table.rows == old(table.rows)
    ensures authenticated && body.Some? && body.value.Some? && body.value.value != [] ==>
      var batch := body.value.value;
      var news := NewContacts(batch, ExistingPhones(old(table.rows), BatchPhones(batch), readFailed));
      if news != [] && reply.BatchRefused? then
        resp == Response(500, ErrorPayload(AddFailed)) && table.rows == old(table.rows)
      else
        resp == Response(200, Counts(|news|, |batch| - |news|, |batch|))
        && |news| <= |batch|
        && table.rows == old(table.rows) + (if news == [] then [] else StoredRows(news, reply.ids, reply.createdAt))
  {
    if !authenticated {
      return Response(401, ErrorPayload(AuthRequired));
    }
    if body.None? {
      return Response(500, ErrorPayload(AddFailed));
    }
    if body.value.None? || body.value.value == [] {
      return Response(400, ErrorPayload(ContactsRequired));
    }
    var contacts := body.value.value;
    var existingPhones := ExistingPhones(table.rows, BatchPhones(contacts), readFailed);
    var newContacts := NewContacts(contacts, existingPhones);
    AddedPlusSkipped(contacts, existingPhones);
    var duplicateCount := |contacts| - |newContacts|;
    if |newContacts| > 0 {
      var error := table.Insert(newContacts, reply);
      if error.Some? {
        return Response(500, ErrorPayload(AddFailed));
      }
    }
    resp := Response(200, Counts(|newContacts|, duplicateCount, |contacts|));
  }

  /** The counts of a `POST`: `added + duplicates == total`, duplicates being the skipped entries. */
  lemma PostCounts(batch: seq<ContactInput>, existing: set<string>)
    ensures var added := |NewContacts(batch, existing)|;
      added <= |batch| && |batch| - added == CountSkipped(batch, existing)
  {
    AddedPlusSkipped(batch, existing);
  }

  /** An entry whose phone the store holds is skipped, provided the lookup succeeds. */
  lemma StoredPhoneSkipped(rows: seq<Contact>, batch: seq<ContactInput>, k: nat, j: nat)
    requires k < |batch| && j < |rows| && batch[k].phoneNumber != "" && rows[j].phoneNumber == batch[k].phoneNumber
    ensures !IsNew(batch[k], ExistingPhones(rows, BatchPhones(batch), false))
  {
    assert batch[k].phoneNumber in BatchPhones(batch);
  }

  /** `PATCH`: `id` is `None` or empty when the body has none; `fault` is the store's update error. */
  method Patch(authenticated: bool, body: Option<(Option<string>, ContactUpdate)>, fault: Option<DbError>,
               table: ContactTable)
    returns (resp: Response)
    modifies table
    ensures !authenticated ==> resp == Response(401, ErrorPayload(AuthRequired)) && table.rows == old(table.rows)
    ensures authenticated && body.None? ==> resp == Response(500, ErrorPayload(UpdateFailed)) && table.rows == old(table.rows)
    ensures authenticated && body.Some? && (body.value.0.None? || body.value.0.value == "") ==>
      resp == Response(400, ErrorPayload(IdRequired)) && table.rows == old(table.rows)
    ensures authenticated && body.Some? && body.value.0.Some? && body.value.0.value != "" ==>
      (fault.Some? ==> resp == Response(500, ErrorPayload(UpdateFailed)) && table.rows == old(table.rows))
      && (fault.None? ==> resp == Response(200, Done) && table.rows == Updated(old(table.rows), body.value.0.value, body.value.1))
  {
    if !authenticated {
      return Response(401, ErrorPayload(AuthRequired));
    }
    if body.None? {
      return Response(500, ErrorPayload(UpdateFailed));
    }
    var (id, updates) := body.value;
    if id.None? || id.value == "" {
      return Response(400, ErrorPayload(IdRequired));
    }
    var error := table.Update(id.value, updates, fault);
    if error.Some? {
      return Response(500, ErrorPayload(UpdateFailed));
    }
    resp := Response(200, Done);
  }

  /** `DELETE`: `id` is the query parameter, `None` when absent. */
  method Delete(authenticated: bool, id: Option<string>, fault: Option<DbError>, table: ContactTable)
    returns (resp: Response)
    modifies table
    ensures !authenticated ==> resp == Response(401, ErrorPayload(AuthRequired)) && table.rows == old(table.rows)
    ensures authenticated && (id.None? || id.value == "") ==>
      resp == Response(400, ErrorPayload(IdRequired)) && table.rows == old(table.rows)
    ensures authenticated && id.Some? && id.value != "" ==>
      (fault.Some? ==> resp == Response(500, ErrorPayload(DeleteFailed)) && table.rows == old(table.rows))
      && (fault.None? ==> resp == Response(200, Done) && table.rows == Without(old(table.rows), id.value))
  {
    if !authenticated {
      return Response(401, ErrorPayload(AuthRequired));
    }
    if id.None? || id.value == "" {
      return Response(400, ErrorPayload(IdRequired));
    }
    var error := table.Delete(id.value, fault);
    if error.Some? {
      return Response(500, ErrorPayload(DeleteFailed));
    }
    resp := Response(200, Done);
  }

  /** An update touches only the rows with that id, and only the fields it names. */
  lemma UpdateOnlyTouchesId(rows: seq<Contact>, id: string, u: ContactUpdate, k: nat)
    requires k < |rows|
    ensures rows[k].id != id ==> Updated(rows, id, u)[k] == rows[k]
    ensures rows[k].id == id && u == ContactUpdate(None, None, None, None) ==> Updated(rows, id, u)[k] == rows[k]
    ensures rows[k].id == id && u.optedOut.Some? ==> Updated(rows, id, u)[k].optedOut == u.optedOut.value
  {
  }

  /** Deleting twice is deleting once. */
  lemma DeleteIdempotent(rows: seq<Contact>, id: string)
    ensures Without(Without(rows, id), id) == Without(rows, id)
  {
    WithoutNone(Without(rows, id), id);
  }

  lemma {:induction false} WithoutNone(rows: seq<Contact>, id: string)
    requires forall k :: 0 <= k < |rows| ==> rows[k].id != id
    ensures Without(rows, id) == rows
  {
    if rows != [] {
      assert forall k :: 0 <= k < |rows[1..]| ==> rows[1..][k] == rows[k + 1];
      WithoutNone(rows[1..], id);
      assert [rows[0]] + rows[1..] == rows;
    }
  }
}
