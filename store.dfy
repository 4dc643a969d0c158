/** The browser-side record store: one table per entity, every row carrying a
    synchronisation marker, plus the small key-value area (localStorage) that
    holds the session and the sync watermark. */
module Store {

  datatype Option<+T> = None | Some(value: T)

  /** Client-generated primary key (a UUID). Numeric and string ids that the
      application compares loosely are one id type here. */
  type Id = string

  /** `syncStatus`: a row is `pending` until a sync cycle pushes it. */
  datatype SyncStatus = Pending | Synced

  /** A stored row: the entity's own fields and its synchronisation marker. */
  datatype Tracked<T> = Tracked(row: T, syncStatus: SyncStatus)

  type Table<T> = map<Id, Tracked<T>>

  /** Milliseconds in one day: dates are day numbers, instants are milliseconds. */
  const DayMs: int := 86400000

  const Active: string := "Activo"
  const AdminManage: string := "admin.manage"

  /** Row of `pigs`. Two creation forms write different field names for the
      same notion (`numero_arete` / `tag_number`, `sexo` / `sex`, `etapa` /
      `stage`, `fecha_nacimiento` / `birth_date`, `peso` / `weight`); they are
      kept apart because other code reads only one of them. */
  datatype Pig = Pig(
    nombre: Option<string>,
    numeroArete: Option<string>,
    tagNumber: Option<string>,
    sexo: Option<string>,
    sex: Option<string>,
    etapa: Option<string>,
    stage: Option<string>,
    penId: Option<Id>,
    fechaNacimiento: Option<int>,
    birthDate: Option<int>,
    peso: Option<real>,
    weight: Option<real>,
    status: string,
    deletedAt: Option<int>,
    createdAt: Option<int>,
    updatedAt: Option<int>)

  /** Row of `health_records` (the only other table the sync service moves). */
  datatype HealthRecord = HealthRecord(pigId: Option<Id>, isDeleted: bool, updatedAt: Option<int>)

  /** `current_stock_kg` as the code sees it: missing, not a number, or a quantity. */
  datatype Stock = Missing | NotANumber | Kg(kg: real)

  /** Row of `feed_inventory`; `currentStock` is the legacy `current_stock` field. */
  datatype FeedItem = FeedItem(
    name: string,
    costPerKg: real,
    currentStockKg: Stock,
    currentStock: Option<real>,
    batchNumber: string,
    updatedAt: Option<int>)

  /** Row of `feed_usage`. */
  datatype FeedUsage = FeedUsage(
    feedId: Id,
    pigId: Option<Id>,
    penId: Option<Id>,
    amountKg: real,
    date: int,
    createdAt: Option<int>,
    updatedAt: Option<int>)

  datatype Section = Section(name: string, deletedAt: Option<int>)

  /** Row of `pens`; `capacity` is None when it did not parse as an integer. */
  datatype Pen = Pen(name: string, sectionId: Id, capacity: Option<int>, deletedAt: Option<int>)

  datatype Role = Role(name: string, createdAt: Option<int>, updatedAt: Option<int>, deletedAt: Option<int>)

  /** Read-only reference data pulled from the server. */
  datatype Permission = Permission(id: Id, slug: string)
  datatype Medication = Medication(name: string, withdrawalDays: Option<int>, deletedAt: Option<int>)

  /** Row of `weight_logs`: `date` (pig detail, pig page) or `date_measured` (weight tracker). */
  datatype WeightLog = WeightLog(pigId: Id, weight: Option<real>, date: Option<int>, dateMeasured: Option<int>, updatedAt: Option<int>)

  datatype HealthEvent = HealthEvent(
    pigId: Id,
    kind: string,
    description: string,
    date: int,
    cost: real,
    medicationId: Option<Id>,
    withdrawalEndDate: Option<int>)

  datatype BreedingEvent = BreedingEvent(pigId: Id, eventType: string, eventDate: int, details: string, updatedAt: int)

  datatype AccessLog = AccessLog(
    visitorName: string,
    company: string,
    vehiclePlate: string,
    origin: string,
    riskLevel: string,
    entryTime: int,
    createdAt: int,
    updatedAt: int)

  datatype PointsRow = PointsRow(userId: string, points: int, reason: string, eventDate: int, createdAt: int, updatedAt: int)

  /** A user as returned by the login endpoint. */
  datatype User = User(id: Id, email: string, name: string)

  /** The local database: every table the core reads or writes. */
  class LocalDb {
    var pigs: Table<Pig>
    var healthRecords: Table<HealthRecord>
    var feedInventory: Table<FeedItem>
    var feedUsage: Table<FeedUsage>
    var sections: Table<Section>
    var pens: Table<Pen>
    var roles: Table<Role>
    /** `role_permissions`, keyed by the compound key [role_id+permission_id]. */
    var rolePermissions: map<(Id, Id), SyncStatus>
    var weightLogs: Table<WeightLog>
    var healthEvents: Table<HealthEvent>
    var breedingEvents: Table<BreedingEvent>
    var accessLogs: Table<AccessLog>
    var userPoints: Table<PointsRow>

    constructor ()
      ensures pigs == map[] && healthRecords == map[] && feedInventory == map[] && feedUsage == map[]
      ensures sections == map[] && pens == map[] && roles == map[] && rolePermissions == map[]
      ensures weightLogs == map[] && healthEvents == map[] && breedingEvents == map[]
      ensures accessLogs == map[] && userPoints == map[]
    {
      pigs, healthRecords, feedInventory, feedUsage := map[], map[], map[], map[];
      sections, pens, roles, rolePermissions := map[], map[], map[], map[];
      weightLogs, healthEvents, breedingEvents := map[], map[], map[];
      accessLogs, userPoints := map[], map[];
    }
  }

  /** The browser's localStorage: the session and the sync watermark. */
  class KeyValueStorage {
    var token: Option<string>
    var user: Option<User>
    var permissions: Option<seq<string>>
    var lastPulledAt: Option<string>

    constructor ()
      ensures token == None && user == None && permissions == None && lastPulledAt == None
    {
      token, user, permissions, lastPulledAt := None, None, None, None;
    }
  }

  /** The ids of a table whose rows are still to be pushed. */
  function PendingIds<T>(t: Table<T>): (ids: set<Id>)
    ensures ids <= t.Keys
    ensures forall id :: id in ids <==> id in t && t[id].syncStatus == Pending
  {
    set id | id in t && t[id].syncStatus == Pending
  }

  /** `ids` lists every element of `s` exactly once: the result of a table
      query, in whatever order the store returns it. */
  ghost predicate Enumerates(ids: seq<Id>, s: set<Id>)
  {
    && (forall i, j :: 0 <= i < j < |ids| ==> ids[i] != ids[j])
    && (forall i :: 0 <= i < |ids| ==> ids[i] in s)
    && (forall id :: id in s ==> id in ids)
  }

  /** No id occurs twice in `ids`. */
  ghost predicate Distinct(ids: seq<Id>)
  {
    forall i, j :: 0 <= i < j < |ids| ==> ids[i] != ids[j]
  }

  /** The ids a list mentions. */
  function Members(ids: seq<Id>): (s: set<Id>)
    ensures forall i :: 0 <= i < |ids| ==> ids[i] in s
    ensures forall id :: id in s ==> id in ids
  {
    set id | id in ids
  }

  /** A list mentions at most as many ids as it is long, and exactly as many
      when none repeats. */
  lemma {:induction false} MembersCard(ids: seq<Id>)
    ensures |Members(ids)| <= |ids|
    ensures Distinct(ids) ==> |Members(ids)| == |ids|
  {
    if ids != [] {
      var init := ids[..|ids| - 1];
      var last := ids[|ids| - 1];
      MembersCard(init);
      assert Members(ids) == Members(init) + {last} by {
        forall id | id in Members(ids) ensures id in Members(init) + {last} {
          var j :| 0 <= j < |ids| && ids[j] == id;
          if j < |ids| - 1 { assert init[j] == id; }
        }
      }
      if Distinct(ids) {
        assert Distinct(init);
        forall j | 0 <= j < |init| ensures init[j] != last {
          assert init[j] == ids[j];
        }
        assert last !in Members(init);
      }
    }
  }

  /** A JavaScript string is truthy when it is present and not empty. */
  predicate Truthy(s: Option<string>)
  {
    s.Some? && s.value != ""
  }
}
