/**
 * `src/utils/backupUtils.ts`: the shape check of a parsed backup file, the sanitising of
 * records written to a backup, and the backup document itself. The parsed JSON is a
 * `JsonValue`; numbers are integers and the creation time is a parameter.
 */
module BackupUtils {
  import opened Options
  import opened Text
  import opened Records
  import opened Rounding
  import opened Calendar

  /** A value produced by `JSON.parse`. */
  datatype JsonValue =
    | JNull
    | JBool(b: bool)
    | JNumber(n: int)
    | JString(s: string)
    | JArray(items: seq<JsonValue>)
    | JObject(fields: map<string, JsonValue>)

  /** `BackupData`. */
  datatype BackupData = BackupData(version: string, timestamp: string, transactions: seq<Transaction>)

  const Version: string := "1.0"

  /** Property access `v.key`: `None` for `undefined` (no such field, or not an object). */
  function Field(v: JsonValue, key: string): Option<JsonValue> {
    if v.JObject? && key in v.fields then Some(v.fields[key]) else None
  }

  predicate IsStringField(v: JsonValue, key: string) {
    Field(v, key).Some? && Field(v, key).value.JString?
  }

  function StringField(v: JsonValue, key: string): string
    requires IsStringField(v, key)
  {
    Field(v, key).value.s
  }

  /** `!v || typeof v !== 'object'` fails: a non-null object or array. */
  predicate IsObjectLike(v: JsonValue) { v.JObject? || v.JArray? }

  /** `isValidTransaction(v)`: string `id`, `date` shaped `dddd-dd-dd`, string `store`, a
      numeric `amount` and `type` either `income` or `expense`. */
  predicate IsValidTransaction(v: JsonValue) {
    IsObjectLike(v)
    && IsStringField(v, "id")
    && IsStringField(v, "date") && IsoShaped(StringField(v, "date"))
    && IsStringField(v, "store")
    && Field(v, "amount").Some? && Field(v, "amount").value.JNumber?
    && (Field(v, "type") == Some(JString("income")) || Field(v, "type") == Some(JString("expense")))
  }

  /** `validateBackupData(v)`: string `version` and `timestamp`, and an array `transactions`
      whose every element is a valid transaction. */
  predicate ValidateBackupData(v: JsonValue) {
    IsObjectLike(v)
    && IsStringField(v, "version")
    && IsStringField(v, "timestamp")
    && Field(v, "transactions").Some? && Field(v, "transactions").value.JArray?
    && forall i :: 0 <= i < |Field(v, "transactions").value.items| ==>
         IsValidTransaction(Field(v, "transactions").value.items[i])
  }

  /** The record a valid transaction value stands for (the type guard's view of it). */
  function TransactionOf(v: JsonValue): Transaction
    requires IsValidTransaction(v)
  {
    Transaction(StringField(v, "id"), StringField(v, "date"), StringField(v, "store"),
      Field(v, "amount").value.n,
      if Field(v, "type") == Some(JString("income")) then Income else Expense)
  }

  /** The backup a valid value stands for. */
  function BackupOf(v: JsonValue): (b: BackupData)
    requires ValidateBackupData(v)
    ensures |b.transactions| == |Field(v, "transactions").value.items|
  {
    var items := Field(v, "transactions").value.items;
    BackupData(StringField(v, "version"), StringField(v, "timestamp"),
      seq(|items|, i requires 0 <= i < |items| => TransactionOf(items[i])))
  }

  /** The JSON value of a record, as `JSON.stringify` writes it and `JSON.parse` reads it back. */
  function TransactionJson(t: Transaction): JsonValue {
    JObject(map[
      "id" := JString(t.id), "date" := JString(t.date), "store" := JString(t.store),
      "amount" := JNumber(t.amount),
      "type" := JString(if t.kind == Income then "income" else "expense")])
  }

  function BackupJson(b: BackupData): JsonValue {
    JObject(map[
      "version" := JString(b.version), "timestamp" := JString(b.timestamp),
      "transactions" := JArray(seq(|b.transactions|, i requires 0 <= i < |b.transactions| => TransactionJson(b.transactions[i])))])
  }

  /** `sanitizeTransaction(t)`: the store trimmed (`未指定` when nothing is left), the amount
      floored to a multiple of 100, the type re-derived from the sign of the original amount. */
  function SanitizeTransaction(t: Transaction): (r: Transaction)
    ensures r.id == t.id && r.date == t.date
    ensures r.amount % 100 == 0 && t.amount - 100 < r.amount <= t.amount
    ensures r.kind == Income <==> t.amount >= 0
  {
    t.(store := TrimOr(t.store, Unspecified),
       amount := FloorHundred(t.amount),
       kind := if t.amount >= 0 then Income else Expense)
  }

  /** `createBackupData(transactions)` at creation time `timestamp`. */
  function CreateBackupData(ts: seq<Transaction>, timestamp: string): (b: BackupData)
    ensures b.version == Version && b.timestamp == timestamp
    ensures |b.transactions| == |ts|
    ensures forall i :: 0 <= i < |ts| ==> b.transactions[i] == SanitizeTransaction(ts[i])
  {
    BackupData(Version, timestamp, seq(|ts|, i requires 0 <= i < |ts| => SanitizeTransaction(ts[i])))
  }

  // ---------------------------------------------------------------- properties

  /** A sanitised record is consistent: its amount is non-negative exactly when it is income. */
  lemma SanitizedIsConsistent(t: Transaction)
    ensures var r := SanitizeTransaction(t); r.amount >= 0 <==> r.kind == Income
  {
  }

  /** The sanitised store is trimmed and never empty: the trimmed store, or `未指定` when
      trimming leaves nothing. */
  lemma SanitizedStore(t: Transaction)
    ensures var r := SanitizeTransaction(t);
      r.store != [] && Trimmed(r.store)
      && (Trim(t.store) != [] ==> r.store == Trim(t.store))
      && (Trim(t.store) == [] ==> r.store == Unspecified)
  {
    assert Trimmed(Unspecified);
    TrimOrIdempotent(t.store, Unspecified);
  }

  lemma UnspecifiedFallbackStable(s: string)
    ensures TrimOr(TrimOr(s, Unspecified), Unspecified) == TrimOr(s, Unspecified)
  {
    assert Trimmed(Unspecified);
    TrimOrIdempotent(s, Unspecified);
  }

  /** Sanitising twice is sanitising once. */
  lemma SanitizeIdempotent(t: Transaction)
    ensures SanitizeTransaction(SanitizeTransaction(t)) == SanitizeTransaction(t)
  {
    var r := SanitizeTransaction(t);
    var rr := SanitizeTransaction(r);
    assert rr.store == r.store by {
      UnspecifiedFallbackStable(t.store);
    }
    assert rr.amount == r.amount by {
      FloorHundredIdempotent(t.amount);
    }
    assert rr.kind == r.kind by {
      FloorHundredSign(t.amount);
    }
  }

  /** The check is on shape only: `2024-99-99` is accepted as a date, and neither the sign of
      the amount nor its rounding has to match the type. */
  lemma ShapeOnlyValidation()
    ensures IsValidTransaction(TransactionJson(Transaction("a", "2024-99-99", "", -5, Income)))
    ensures !IsCalendarDate("2024-99-99")
  {
    var s := "2024-99-99";
    assert s[..4] == "2024" && s[5..7] == "99" && s[8..] == "99";
    assert NumberValue("9") == 9;
    assert MonthOf(s) == 99;
  }

  /** A record whose date is not shaped `dddd-dd-dd` makes the whole backup invalid. */
  lemma BadDateRejected(t: Transaction)
    requires !IsoShaped(t.date)
    ensures !IsValidTransaction(TransactionJson(t))
  {
  }

  /** Reading back a written record gives the record. */
  lemma TransactionRoundTrip(t: Transaction)
    requires IsoShaped(t.date)
    ensures IsValidTransaction(TransactionJson(t)) && TransactionOf(TransactionJson(t)) == t
  {
  }

  /** Reading back a written backup: it passes `validateBackupData` exactly when every date is
      shaped `dddd-dd-dd`, and then gives the backup back. */
  lemma BackupRoundTrip(b: BackupData)
    ensures ValidateBackupData(BackupJson(b)) <==> forall i :: 0 <= i < |b.transactions| ==> IsoShaped(b.transactions[i].date)
    ensures ValidateBackupData(BackupJson(b)) ==> BackupOf(BackupJson(b)) == b
  {
    var v := BackupJson(b);
    var items := Field(v, "transactions").value.items;
    assert |items| == |b.transactions|;
    assert forall i :: 0 <= i < |items| ==> items[i] == TransactionJson(b.transactions[i]);
    if ValidateBackupData(v) {
      forall i | 0 <= i < |b.transactions|
        ensures IsoShaped(b.transactions[i].date)
      {
        assert IsValidTransaction(items[i]);
        assert StringField(items[i], "date") == b.transactions[i].date;
      }
      forall i | 0 <= i < |b.transactions|
        ensures BackupOf(v).transactions[i] == b.transactions[i]
      {
        TransactionRoundTrip(b.transactions[i]);
      }
    } else {
      if forall i :: 0 <= i < |b.transactions| ==> IsoShaped(b.transactions[i].date) {
        forall i | 0 <= i < |items|
          ensures IsValidTransaction(items[i])
        {
          TransactionRoundTrip(b.transactions[i]);
        }
      }
    }
  }

  /** A backup made from records with well-shaped dates validates and reads back as the
      sanitised records, in order, under version `1.0`. */
  lemma CreatedBackupValidates(ts: seq<Transaction>, timestamp: string)
    requires forall i :: 0 <= i < |ts| ==> IsoShaped(ts[i].date)
    ensures var v := BackupJson(CreateBackupData(ts, timestamp));
      ValidateBackupData(v) && BackupOf(v) == CreateBackupData(ts, timestamp)
      && BackupOf(v).version == Version
  {
    BackupRoundTrip(CreateBackupData(ts, timestamp));
  }

  /** Only objects can be backups: `null`, booleans, numbers, strings and arrays are refused. */
  lemma NonObjectsRejected(v: JsonValue)
    requires !v.JObject?
    ensures !ValidateBackupData(v)
  {
  }
}
