/**
 * ErrorReporter.ReportError: each reported error becomes one entry in a
 * per-namespace, per-day error log kept as a ConfigMap named
 * "publishing-errors-<day>".  The first report of the day creates the log;
 * later ones append to its entry list; a log whose "entries" value is not a
 * list is left alone.
 */
module Reporting {
  import opened Wrappers
  import opened Strings

  datatype User = User(name: string, tenant: string)

  /** One error log entry; level is always "error". */
  datatype Entry = Entry(
    timestamp: string,
    user: string,
    tenant: string,
    operation: string,
    model: string,
    namespace: string,
    error: string,
    level: string)

  /** A stored error log: its list of entries, or a ConfigMap whose "entries" is not a list. */
  datatype LogObject = Entries(entries: seq<Entry>) | Malformed

  /** A ConfigMap is addressed by namespace and name. */
  type Key = (string, string)

  const LogPrefix := "publishing-errors-"

  /** The log name for a day written as yyyy-mm-dd. */
  function LogName(day: string): (name: string)
    ensures HasPrefix(name, LogPrefix) && name[|LogPrefix|..] == day
  {
    LogPrefix + day
  }

  /** Different days are logged under different names. */
  lemma LogNameInjective(day1: string, day2: string)
    requires LogName(day1) == LogName(day2)
    ensures day1 == day2
  {
    assert day1 == LogName(day1)[|LogPrefix|..];
  }

  /** The entry recorded for one report: who, where, what, the error text, and level "error". */
  function MakeEntry(user: User, namespace: string, modelName: string, operation: string,
                     err: string, timestamp: string): (e: Entry)
    ensures e.level == "error" && e.error == err && e.timestamp == timestamp
    ensures e.user == user.name && e.tenant == user.tenant
    ensures e.operation == operation && e.model == modelName && e.namespace == namespace
  {
    Entry(timestamp, user.name, user.tenant, operation, modelName, namespace, err, "error")
  }

  /** The entries a log holds; none when it is absent or malformed. */
  function Logged(objects: map<Key, LogObject>, key: Key): seq<Entry>
  {
    if key in objects && objects[key].Entries? then objects[key].entries else []
  }

  /** A log that ReportError can extend: absent or holding an entry list. */
  predicate Appendable(objects: map<Key, LogObject>, key: Key)
  {
    key !in objects || objects[key].Entries?
  }

  /** The store after reporting entry e to the log at key. */
  function Reported(objects: map<Key, LogObject>, key: Key, e: Entry): (r: map<Key, LogObject>)
    ensures forall k | k != key :: (k in r <==> k in objects) && (k in objects ==> r[k] == objects[k])
    ensures key in r
    ensures Appendable(objects, key) ==> r[key] == Entries(Logged(objects, key) + [e])
    ensures !Appendable(objects, key) ==> r == objects
  {
    if key !in objects then
      assert Logged(objects, key) + [e] == [e];
      objects[key := Entries([e])]
    else match objects[key]
      case Entries(es) => objects[key := Entries(es + [e])]
      case Malformed => objects
  }

  /** Two reports on the same log keep both entries, in the order reported. */
  lemma ReportsKeepOrder(objects: map<Key, LogObject>, key: Key, e1: Entry, e2: Entry)
    requires Appendable(objects, key)
    ensures Logged(Reported(Reported(objects, key, e1), key, e2), key) == Logged(objects, key) + [e1, e2]
  {
  }

  /** Every entry of every well-formed error log has level "error". */
  predicate ErrorLevelOnly(objects: map<Key, LogObject>)
  {
    forall k | k in objects && objects[k].Entries? ::
      forall i | 0 <= i < |objects[k].entries| :: objects[k].entries[i].level == "error"
  }

  /** Reporting keeps every logged entry at level "error". */
  lemma ReportKeepsErrorLevel(objects: map<Key, LogObject>, key: Key, user: User, namespace: string,
                              modelName: string, operation: string, err: string, timestamp: string)
    requires ErrorLevelOnly(objects)
    ensures ErrorLevelOnly(Reported(objects, key, MakeEntry(user, namespace, modelName, operation, err, timestamp)))
  {
    var e := MakeEntry(user, namespace, modelName, operation, err, timestamp);
    var r := Reported(objects, key, e);
    forall k | k in r && r[k].Entries?
      ensures forall i | 0 <= i < |r[k].entries| :: r[k].entries[i].level == "error"
    {
      if k == key && Appendable(objects, key) {
        assert r[k].entries == Logged(objects, key) + [e];
      }
    }
  }

  /** The Kubernetes ConfigMaps the reporter reads and writes. */
  class ConfigMapStore {
    var objects: map<Key, LogObject>

    constructor(objects: map<Key, LogObject>)
      ensures this.objects == objects
    {
      this.objects := objects;
    }

    /** GetConfigMap: None stands for the error returned when the ConfigMap cannot be read. */
    method Get(namespace: string, name: string) returns (r: Option<LogObject>)
      ensures r.Some? <==> (namespace, name) in objects
      ensures r.Some? ==> r.value == objects[(namespace, name)]
    {
      if (namespace, name) in objects {
        r := Some(objects[(namespace, name)]);
      } else {
        r := None;
      }
    }

    method Create(namespace: string, name: string, obj: LogObject)
      modifies this
      ensures objects == old(objects)[(namespace, name) := obj]
    {
      objects := objects[(namespace, name) := obj];
    }

    method Update(namespace: string, name: string, obj: LogObject)
      modifies this
      ensures objects == old(objects)[(namespace, name) := obj]
    {
      objects := objects[(namespace, name) := obj];
    }
  }

  class ErrorReporter {
    const store: ConfigMapStore

    /** NewErrorReporter */
    constructor(store: ConfigMapStore)
      ensures this.store == store
    {
      this.store := store;
    }

    /**
     * err is the reported error's text, timestamp the current time in
     * RFC 3339 and day the current date; both times come from the clock.
     */
    method ReportError(user: User, namespace: string, modelName: string, operation: string,
                       err: string, timestamp: string, day: string)
      modifies store
      ensures store.objects == Reported(old(store.objects), (namespace, LogName(day)),
                                        MakeEntry(user, namespace, modelName, operation, err, timestamp))
    {
      var entry := MakeEntry(user, namespace, modelName, operation, err, timestamp);
      var logName := LogName(day);
      var existing := store.Get(namespace, logName);
      if existing.None? {
        store.Create(namespace, logName, Entries([entry]));
      } else if existing.value.Entries? {
        store.Update(namespace, logName, Entries(existing.value.entries + [entry]));
      }
    }
  }
}
