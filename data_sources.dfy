/**
 * `get_data_sources_for_workbook`: turn a workbook's connections into a list
 * of data sources whose names are pairwise distinct. Names already taken are
 * kept in a `seen` set shared by database names and server addresses.
 */
module DataSources {
  import opened Wrappers
  import opened Api

  datatype DataSource = DataSource(name: string, kind: string, server: string)

  /** `conn.get('datasourceName', '') or conn.get('dbname', '')` */
  function DbName(c: RawConnection): string {
    var ds := c.datasourceName.GetOr("");
    if ds != "" then ds else c.dbname.GetOr("")
  }

  function ServerAddress(c: RawConnection): string {
    c.serverAddress.GetOr("")
  }

  function TypeLabel(c: RawConnection): string {
    c.connectionType.GetOr("Unknown")
  }

  function Names(ds: seq<DataSource>): (names: set<string>)
    ensures forall i :: 0 <= i < |ds| ==> ds[i].name in names
    ensures forall n :: n in names ==> exists i :: 0 <= i < |ds| && ds[i].name == n
  {
    set i | 0 <= i < |ds| :: ds[i].name
  }

  lemma NamesSnoc(ds: seq<DataSource>, e: DataSource)
    ensures Names(ds + [e]) == Names(ds) + {e.name}
  {
    var l := ds + [e];
    forall n ensures n in Names(l) <==> n in Names(ds) + {e.name} {
      if n in Names(l) {
        var i :| 0 <= i < |l| && l[i].name == n;
        if i < |ds| {
          assert ds[i].name == n;
        }
      }
      if n in Names(ds) {
        var i :| 0 <= i < |ds| && ds[i].name == n;
        assert l[i].name == n;
      }
    }
  }

  /**
   * One step of the loop: an unseen database name adds an entry under that
   * name; failing that, an unseen server address adds an entry under the
   * address, even when the database name was present but already seen.
   */
  function Admit(ds: seq<DataSource>, c: RawConnection): seq<DataSource> {
    var db := DbName(c);
    var server := ServerAddress(c);
    if db != "" && db !in Names(ds) then ds + [DataSource(db, TypeLabel(c), server)]
    else if server != "" && server !in Names(ds) then ds + [DataSource(server, TypeLabel(c), server)]
    else ds
  }

  /** A step either changes nothing or appends one entry under a fresh, non-empty name. */
  lemma AdmitCases(ds: seq<DataSource>, c: RawConnection)
    ensures var r := Admit(ds, c);
      || r == ds
      || (&& |r| == |ds| + 1 && r[..|ds|] == ds
          && r[|ds|].name != "" && r[|ds|].name !in Names(ds)
          && (r[|ds|] == ByDbName(c) || r[|ds|] == ByServer(c))
          && Names(r) == Names(ds) + {r[|ds|].name})
  {
    var r := Admit(ds, c);
    if r != ds {
      assert r[..|ds|] == ds;
      NamesSnoc(ds, r[|ds|]);
    }
  }

  /** The data sources of `conns`, processed in connection order. */
  function Deduplicated(conns: seq<RawConnection>): seq<DataSource> {
    if conns == [] then [] else Admit(Deduplicated(conns[..|conns| - 1]), conns[|conns| - 1])
  }

  method GetDataSourcesForWorkbook(reply: Reply<RawConnection>) returns (dataSources: seq<DataSource>)
    ensures dataSources == Deduplicated(reply.ItemsOrEmpty())
  {
    var connections := reply.ItemsOrEmpty();
    dataSources := [];
    var seen: set<string> := {};
    var i := 0;
    while i < |connections|
      invariant 0 <= i <= |connections|
      invariant dataSources == Deduplicated(connections[..i])
      invariant seen == Names(dataSources)
    {
      var conn := connections[i];
      assert connections[..i + 1][..i] == connections[..i];
      var dsType := TypeLabel(conn);
      var serverAddress := ServerAddress(conn);
      var dbName := DbName(conn);
      if dbName != "" && dbName !in seen {
        NamesSnoc(dataSources, DataSource(dbName, dsType, serverAddress));
        dataSources := dataSources + [DataSource(dbName, dsType, serverAddress)];
        seen := seen + {dbName};
      } else if serverAddress != "" && serverAddress !in seen {
        NamesSnoc(dataSources, DataSource(serverAddress, dsType, serverAddress));
        dataSources := dataSources + [DataSource(serverAddress, dsType, serverAddress)];
        seen := seen + {serverAddress};
      }
      i := i + 1;
    }
    assert connections[..|connections|] == connections;
  }

  predicate DistinctNames(ds: seq<DataSource>) {
    forall i, j :: 0 <= i < j < |ds| ==> ds[i].name != ds[j].name
  }

  /** Names are pairwise distinct. */
  lemma {:induction false} NamesDistinct(conns: seq<RawConnection>)
    ensures DistinctNames(Deduplicated(conns))
  {
    if conns != [] {
      var init := conns[..|conns| - 1];
      NamesDistinct(init);
      var prev, ds := Deduplicated(init), Deduplicated(conns);
      AdmitCases(prev, conns[|conns| - 1]);
      if ds != prev {
        forall i, j | 0 <= i < j < |ds| ensures ds[i].name != ds[j].name {
          assert ds[i] == prev[i];
          if j < |prev| {
            assert ds[j] == prev[j];
          } else {
            assert prev[i].name in Names(prev);
          }
        }
      }
    }
  }

  /** The entry a connection contributes under its database name. */
  function ByDbName(c: RawConnection): DataSource {
    DataSource(DbName(c), TypeLabel(c), ServerAddress(c))
  }

  /** The entry a connection contributes under its server address. */
  function ByServer(c: RawConnection): DataSource {
    DataSource(ServerAddress(c), TypeLabel(c), ServerAddress(c))
  }

  /** The index of the connection each entry comes from. */
  ghost function Origins(conns: seq<RawConnection>): seq<nat> {
    if conns == [] then []
    else
      var init := conns[..|conns| - 1];
      Origins(init) + (if |Admit(Deduplicated(init), conns[|conns| - 1])| > |Deduplicated(init)| then [|conns| - 1] else [])
  }

  /**
   * Entries follow connection order: the i-th entry comes from connection
   * Origins[i], the origins strictly increase, and each entry is named by its
   * connection's non-empty database name or else its non-empty server
   * address, carrying that connection's type and server address.
   */
  lemma {:induction false} EntriesFollowConnections(conns: seq<RawConnection>)
    ensures var ds, o := Deduplicated(conns), Origins(conns);
      && |o| == |ds|
      && (forall i :: 0 <= i < |o| ==> o[i] < |conns|)
      && (forall i, j :: 0 <= i < j < |o| ==> o[i] < o[j])
      && (forall i :: 0 <= i < |ds| ==>
            ds[i].name != "" && (ds[i] == ByDbName(conns[o[i]]) || ds[i] == ByServer(conns[o[i]])))
  {
    if conns != [] {
      var init := conns[..|conns| - 1];
      EntriesFollowConnections(init);
      AdmitCases(Deduplicated(init), conns[|conns| - 1]);
      forall i | 0 <= i < |Origins(init)| ensures conns[Origins(init)[i]] == init[Origins(init)[i]] {
      }
    }
  }

  /**
   * No name is lost: every non-empty database name is among the names, and so
   * is every non-empty server address of a connection without a database name.
   */
  lemma {:induction false} EveryNameCovered(conns: seq<RawConnection>)
    ensures var names := Names(Deduplicated(conns));
      forall c :: c in conns ==>
        (DbName(c) != "" ==> DbName(c) in names) &&
        (DbName(c) == "" && ServerAddress(c) != "" ==> ServerAddress(c) in names)
  {
    if conns != [] {
      var init := conns[..|conns| - 1];
      EveryNameCovered(init);
      AdmitCases(Deduplicated(init), conns[|conns| - 1]);
      forall c | c in conns ensures c in init || c == conns[|conns| - 1] {
        assert conns == init + [conns[|conns| - 1]];
      }
    }
  }

  /**
   * Two connections to the same database collapse into one entry, the first,
   * when the second has no new server address...
   */
  lemma SameDatabaseCollapses(first: RawConnection, second: RawConnection)
    requires DbName(first) != "" && DbName(second) == DbName(first)
    requires ServerAddress(second) == "" || ServerAddress(second) == DbName(first)
    ensures Deduplicated([first, second]) == [ByDbName(first)]
  {
    assert [first, second][..1] == [first];
    assert [first][..0] == [];
    assert Names([]) == {};
    assert Deduplicated([first]) == [ByDbName(first)];
    NamesSnoc([], ByDbName(first));
  }

  /**
   * After any connections, a connection whose database name was already seen
   * but whose server address was not adds an entry named by that address.
   */
  lemma SeenDatabaseUnseenServer(conns: seq<RawConnection>, c: RawConnection)
    requires DbName(c) != "" && DbName(c) in Names(Deduplicated(conns))
    requires ServerAddress(c) != "" && ServerAddress(c) !in Names(Deduplicated(conns))
    ensures Deduplicated(conns + [c]) == Deduplicated(conns) + [ByServer(c)]
  {
    assert (conns + [c])[..|conns|] == conns;
  }

  /**
   * After any connections, a connection whose database name and server
   * address are each empty or already taken adds nothing: the first entry
   * under a name wins and later duplicates are dropped.
   */
  lemma LaterDuplicateDropped(conns: seq<RawConnection>, c: RawConnection)
    requires DbName(c) == "" || DbName(c) in Names(Deduplicated(conns))
    requires ServerAddress(c) == "" || ServerAddress(c) in Names(Deduplicated(conns))
    ensures Deduplicated(conns + [c]) == Deduplicated(conns)
  {
    assert (conns + [c])[..|conns|] == conns;
  }

  /**
   * Later connections never change earlier entries: the entries of a prefix
   * of the connections are a prefix of the entries of all of them.
   */
  lemma {:induction false} PrefixStable(conns: seq<RawConnection>, k: nat)
    requires k <= |conns|
    ensures |Deduplicated(conns[..k])| <= |Deduplicated(conns)|
    ensures Deduplicated(conns)[..|Deduplicated(conns[..k])|] == Deduplicated(conns[..k])
    decreases |conns|
  {
    if k == |conns| {
      assert conns[..k] == conns;
    } else {
      var init := conns[..|conns| - 1];
      assert init[..k] == conns[..k];
      PrefixStable(init, k);
      AdmitCases(Deduplicated(init), conns[|conns| - 1]);
    }
  }

  /**
   * ...but a second connection to an already seen database with an unseen
   * server address still adds an entry, named by that address.
   */
  lemma SeenDatabaseFallsBackToServer(first: RawConnection, second: RawConnection)
    requires DbName(first) != "" && DbName(second) == DbName(first)
    requires ServerAddress(second) != "" && ServerAddress(second) != DbName(first)
    ensures Deduplicated([first, second]) == [ByDbName(first), ByServer(second)]
  {
    assert [first, second][..1] == [first];
    assert [first][..0] == [];
    assert Names([]) == {};
    assert Deduplicated([first]) == [ByDbName(first)];
    NamesSnoc([], ByDbName(first));
  }
}
