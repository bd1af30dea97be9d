/** Adding a pod, removing an empty pod, and removing all containers of a pod keep the database consistent. */
module PodInvariants {
  import opened Digraphs
  import opened Containers
  import opened Databases
  import opened DatabaseInvariants
  import opened RecordInvariants

  lemma AddPodKeepsRegistries(db: Database, p: Id, name: Name)
    requires Registries(db) && AddPodTx(db, p, name).Some?
    ensures Registries(AddPodTx(db, p, name).value)
  {
    var t := AddPodTx(db, p, name).value;
    forall c | c in t.ctrs ensures CtrRegistered(t, c) { assert CtrRegistered(db, c); }
    forall q | q in t.pods ensures PodRegistered(t, q) { assert q != p ==> PodRegistered(db, q); }
  }

  lemma AddPodKeepsMembership(db: Database, p: Id, name: Name)
    requires Membership(db) && AddPodTx(db, p, name).Some?
    ensures Membership(AddPodTx(db, p, name).value) && Keeps(db, AddPodTx(db, p, name).value)
  {
    var t := AddPodTx(db, p, name).value;
    forall c | c in t.ctrs ensures MemberOk(t, c) { assert MemberOk(db, c); }
    forall q, c | q in t.pods && c in t.pods[q].containers ensures c in t.ctrs && t.ctrs[c].podID == Some(q) {
      assert q in db.pods && c in db.pods[q].containers;
    }
  }

  lemma RemovePodKeepsRegistries(db: Database, p: Id, name: Name)
    requires Registries(db) && RemovePodTx(db, p, name).Some? && db.pods[p].name == name
    ensures Registries(RemovePodTx(db, p, name).value)
  {
    var t := RemovePodTx(db, p, name).value;
    assert PodRegistered(db, p);
    forall i | i in t.ids ensures t.ids[i] in t.names && t.names[t.ids[i]] == i { assert db.names[db.ids[i]] == i; }
    forall c | c in t.ctrs ensures CtrRegistered(t, c) { assert CtrRegistered(db, c); }
    forall q | q in t.pods ensures PodRegistered(t, q) { assert PodRegistered(db, q); }
  }

  lemma RemovePodKeepsMembership(db: Database, p: Id, name: Name)
    requires Membership(db) && RemovePodTx(db, p, name).Some?
    ensures Membership(RemovePodTx(db, p, name).value) && Keeps(db, RemovePodTx(db, p, name).value)
  {
    var t := RemovePodTx(db, p, name).value;
    forall c | c in t.ctrs ensures MemberOk(t, c) {
      assert MemberOk(db, c);
      assert c !in db.pods[p].containers.Keys;
    }
    forall q, c | q in t.pods && c in t.pods[q].containers ensures c in t.ctrs && t.ctrs[c].podID == Some(q) {
      assert c in db.pods[q].containers;
    }
  }

  /** The members of a pod are the containers that have it as their pod. */
  lemma MembersArePodded(db: Database, p: Id, c: Id)
    requires Membership(db) && p in db.pods
    ensures c in db.pods[p].containers <==> c in db.ctrs && db.ctrs[c].podID == Some(p)
  {
    if c in db.ctrs { assert MemberOk(db, c); }
  }

  lemma MemberNames(db: Database, p: Id)
    requires Registries(db) && Membership(db) && p in db.pods
    ensures forall c {:trigger db.pods[p].containers[c]} :: c in db.pods[p].containers ==>
              c in db.ctrs && c in db.ids && db.pods[p].containers[c] == db.ids[c]
  {
    forall c | c in db.pods[p].containers
      ensures c in db.ctrs && c in db.ids && db.pods[p].containers[c] == db.ids[c]
    {
      MembersArePodded(db, p, c);
      assert CtrRegistered(db, c) && MemberOk(db, c);
    }
  }

  /** In a consistent database the whole pod can always go. */
  lemma PodCanAlwaysGo(db: Database, p: Id)
    requires Dependents(db) && Membership(db) && p in db.pods
    ensures RemovePodContainersTx(db, p).Some?
  {
    var members := db.pods[p].containers;
    forall c | c in members ensures CanGo(db, members, c) {
      MembersArePodded(db, p, c);
      forall e | e in db.ctrs[c].dependents ensures e in members {
        assert c in Deps(db, e) && DepStored(db, e, c);
        MembersArePodded(db, p, e);
      }
    }
  }

  lemma RemovePodContainersDrops(db: Database, p: Id)
    requires RemovePodContainersTx(db, p).Some?
    ensures Drops(db, RemovePodContainersTx(db, p).value)
  {
  }

  lemma ValueOfKey<K, V>(m: map<K, V>, k: K)
    ensures k in m ==> m[k] in m.Values
  {
  }

  lemma RemovePodContainersKeepsRegistries(db: Database, p: Id)
    requires Registries(db) && Membership(db) && RemovePodContainersTx(db, p).Some?
    ensures Registries(RemovePodContainersTx(db, p).value)
  {
    var t := RemovePodContainersTx(db, p).value;
    var members := db.pods[p].containers;
    MemberNames(db, p);
    forall i | i in t.ids ensures t.ids[i] in t.names && t.names[t.ids[i]] == i { assert db.names[db.ids[i]] == i; }
    forall n | n in t.names ensures t.names[n] in t.ids && t.ids[t.names[n]] == n {
      var i := db.names[n];
      ValueOfKey(members, i);
    }
    forall c | c in t.ctrs ensures CtrRegistered(t, c) { assert CtrRegistered(db, c); }
    forall q | q in t.pods ensures PodRegistered(t, q) { assert PodRegistered(db, q); }
  }

  lemma RemovePodContainersKeepsDependents(db: Database, p: Id)
    requires Dependents(db) && Membership(db) && RemovePodContainersTx(db, p).Some?
    ensures Dependents(RemovePodContainersTx(db, p).value)
  {
    var t := RemovePodContainersTx(db, p).value;
    forall c, d | c in t.ctrs && d in Deps(t, c) ensures DepStored(t, c, d) {
      assert d in Deps(db, c) && DepStored(db, c, d);
      MembersArePodded(db, p, c);
      MembersArePodded(db, p, d);
    }
    forall c, d | d in t.ctrs && c in t.ctrs[d].dependents ensures c in t.ctrs && d in Deps(t, c) {
      assert c in db.ctrs[d].dependents && d in Deps(db, c) && DepStored(db, c, d);
      MembersArePodded(db, p, c);
      MembersArePodded(db, p, d);
    }
  }

  lemma RemovePodContainersKeepsMembership(db: Database, p: Id)
    requires Membership(db) && RemovePodContainersTx(db, p).Some?
    ensures Membership(RemovePodContainersTx(db, p).value)
  {
    var t := RemovePodContainersTx(db, p).value;
    forall c | c in t.ctrs ensures MemberOk(t, c) {
      assert MemberOk(db, c);
      MembersArePodded(db, p, c);
    }
    forall q, c | q in t.pods && c in t.pods[q].containers ensures c in t.ctrs && t.ctrs[c].podID == Some(q) {
      assert q != p && c in db.pods[q].containers;
      MembersArePodded(db, p, c);
    }
  }

  lemma RemovePodContainersKeepsConsistent(db: Database, p: Id)
    requires Consistent(db) && RemovePodContainersTx(db, p).Some?
    ensures Consistent(RemovePodContainersTx(db, p).value)
  {
    var t := RemovePodContainersTx(db, p).value;
    RemovePodContainersKeepsRegistries(db, p);
    RemovePodContainersKeepsDependents(db, p);
    RemovePodContainersDrops(db, p);
    RemovePodContainersKeepsMembership(db, p);
    DropKeepsAcyclic(db, t);
    DropKeepsVolumes(db, t);
    DropKeepsExecBuckets(db, t);
  }
}
