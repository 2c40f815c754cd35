/** Users and services across restarts: what each admin request leaves in the two files,
    and what a restart reads back (config/services.go, config/userstore.go). A crash
    between two writes is a request whose later writes fail, followed by a restart. */
module UserDurability {
  import opened Common
  import opened Text
  import opened ServiceCatalog
  import opened UserRegistry

  /** What a restart would read: the catalogue and the users, under their names. */
  datatype Disk = Disk(services: Services, users: Users)

  datatype World = World(mem: State, disk: Disk)

  /** `undone` is the write that takes a created service back; `stored` are the users a
      vault saved before it failed. */
  datatype Event = Do(a: Action, undone: bool, stored: set<string>) | Restart(servicesRead: bool, usersRead: bool)

  // ---- what is written ---------------------------------------------------

  /** The request gets as far as storing the new user. */
  predicate Creates(s: State, a: Action) {
    a.CreateUser? && a.username != "" && a.username !in s.users && a.hashed
  }

  /** One user's record is saved: a vault keeps each by itself, the file holds them all. */
  function UserSaved(c: Config, disk: Users, mem: Users, name: string): Users
    requires name in mem
  {
    if c.vault then disk[name := mem[name]] else mem
  }

  function UserRemoved(c: Config, disk: Users, mem: Users, name: string): Users {
    if c.vault then disk - {name} else mem
  }

  function CreateOnDisk(c: Config, s: State, disk: Users, a: Action): Users
    requires Creates(s, a)
  {
    if !a.written then disk
    else
      var mem := s.users[a.username := NewUser(s, a)];
      var saved := UserSaved(c, disk, mem, a.username);
      if a.secretStored || !a.undone then saved else UserRemoved(c, saved, mem - {a.username}, a.username)
  }

  /** The users whose list a deletion changes; only these are saved one by one. */
  predicate Changed(s: State, name: string, service: string)
    requires name in s.users
  {
    DropFrom(s.users[name], service) != s.users[name]
  }

  predicate Saves(c: Config, a: Action, stored: set<string>, name: string)
    requires a.DeleteService?
  {
    a.usersWritten || (c.vault && name in stored)
  }

  /** Nothing is written if no list changes. */
  function DropOnDisk(c: Config, s: State, disk: Users, a: Action, stored: set<string>): Users
    requires a.DeleteService?
  {
    var service := NormalizeName(a.rawName);
    var mem := DropEverywhere(s.users, service);
    if mem == s.users then disk
    else if c.vault then
      map name | name in disk.Keys + s.users.Keys && (name in disk || SavedChange(c, s, a, stored, name)) ::
        if SavedChange(c, s, a, stored, name) then mem[name] else disk[name]
    else if a.usersWritten then mem else disk
  }

  predicate SavedChange(c: Config, s: State, a: Action, stored: set<string>, name: string)
    requires a.DeleteService?
  {
    name in s.users && Changed(s, name, NormalizeName(a.rawName)) && Saves(c, a, stored, name)
  }

  function UsersOnDisk(c: Config, s: State, disk: Users, a: Action, stored: set<string>): Users {
    match a
    case CreateUser(_, _, _, _, _, _, _, _) => if Creates(s, a) then CreateOnDisk(c, s, disk, a) else disk
    case UpdateAccess(username, _, written) =>
      if username in s.users && s.users[username].role != "admin" && written
      then UserSaved(c, disk, Step(c, s, a).0.users, username) else disk
    case DeleteUser(username, written) =>
      if Step(c, s, a).1 == Ok then UserRemoved(c, disk, Step(c, s, a).0.users, username) else disk
    case DeleteService(_, _, _, written, _) => if Deletes(s, a) && written then DropOnDisk(c, s, disk, a, stored) else disk
    case _ => disk
  }

  /** The catalogue's file is the memory's catalogue whenever its write succeeds. */
  function ServicesOnDisk(c: Config, s: State, disk: Services, a: Action, undone: bool): Services {
    match a
    case CreateService(req, locked, written, secretStored) =>
      (match Built(c.urlOk, req, None)
       case None => disk
       case Some(svc) =>
         if svc.name in s.services || (NeedsSecrets(req) && locked) || !written then disk
         else if req.secret != "" && !secretStored && !undone then Upserted(c.urlOk, s.services, svc)
         else Step(c, s, a).0.services)
    case UpdateService(_, _, _, written, _) => if written && Step(c, s, a).0.services != s.services then Step(c, s, a).0.services else disk
    case DeleteService(_, _, _, written, _) => if Deletes(s, a) && written then Step(c, s, a).0.services else disk
    case _ => disk
  }

  function Next(c: Config, w: World, e: Event): World {
    match e
    case Do(a, undone, stored) =>
      World(Step(c, w.mem, a).0,
            Disk(ServicesOnDisk(c, w.mem, w.disk.services, a, undone), UsersOnDisk(c, w.mem, w.disk.users, a, stored)))
    case Restart(servicesRead, usersRead) =>
      w.(mem := State(if servicesRead then w.disk.services else map[], if usersRead then w.disk.users else map[]))
  }

  function WorldAt(c: Config, w: World, run: seq<Event>, i: nat): World
    requires i <= |run|
  {
    if i == 0 then w else Next(c, WorldAt(c, w, run, i - 1), run[i - 1])
  }

  // ---- memory and files agree --------------------------------------------

  predicate Mirror(w: World) {
    w.disk == Disk(w.mem.services, w.mem.users)
  }

  /** Every write of the event succeeds; a restart can read both files. */
  predicate Complete(e: Event) {
    match e
    case Restart(servicesRead, usersRead) => servicesRead && usersRead
    case Do(a, undone, _) =>
      && a.written
      && (a.CreateUser? ==> a.secretStored || a.undone)
      && (a.CreateService? ==> a.secretStored || undone)
      && (a.DeleteService? ==> a.usersWritten)
  }

  lemma MirrorUsers(c: Config, s: State, a: Action, undone: bool, stored: set<string>)
    requires Complete(Do(a, undone, stored))
    ensures UsersOnDisk(c, s, s.users, a, stored) == Step(c, s, a).0.users
  {
    hide NormalizeAllowed, Built, Upserted, NeedsSecrets, NormalizeName, Protected, DropName;
    match a
    case CreateUser(_, _, _, _, _, _, _, _) =>
    case UpdateAccess(_, _, _) =>
    case DeleteUser(_, _) =>
    case DeleteService(_, _, _, _, _) => MirrorDrop(c, s, a, stored);
    case _ =>
  }

  lemma MirrorDrop(c: Config, s: State, a: Action, stored: set<string>)
    requires a.DeleteService? && a.usersWritten
    ensures DropOnDisk(c, s, s.users, a, stored) == DropEverywhere(s.users, NormalizeName(a.rawName))
  {
    hide NormalizeName, DropFrom;
  }

  lemma MirrorServices(c: Config, s: State, a: Action, undone: bool, stored: set<string>)
    requires Complete(Do(a, undone, stored))
    ensures ServicesOnDisk(c, s, s.services, a, undone) == Step(c, s, a).0.services
  {
    hide NormalizeAllowed, Built, Upserted, NeedsSecrets, NormalizeName, Protected, DropEverywhere, NewUser;
  }

  lemma MirrorStep(c: Config, w: World, e: Event)
    requires Mirror(w) && Complete(e)
    ensures Mirror(Next(c, w, e))
    ensures e.Restart? ==> Next(c, w, e).mem == w.mem
  {
    hide Step, UsersOnDisk, ServicesOnDisk, Complete;
    match e
    case Do(a, undone, stored) =>
      MirrorUsers(c, w.mem, a, undone, stored);
      MirrorServices(c, w.mem, a, undone, stored);
    case Restart(_, _) => CompleteRestart(e);
  }

  lemma CompleteRestart(e: Event)
    requires e.Restart? && Complete(e)
    ensures e.servicesRead && e.usersRead
  {
  }

  // ---- integrity across restarts -----------------------------------------

  ghost predicate Sound(c: Config, w: World) {
    Mirror(w) && WellFormed(c, w.mem) && Integrity(w.mem)
  }

  lemma CompleteNotDangling(w: World, e: Event)
    requires e.Do? && Complete(e)
    ensures !Dangling(w.mem, e.a)
  {
  }

  lemma SoundStep(c: Config, w: World, e: Event)
    requires Sound(c, w) && Complete(e)
    ensures Sound(c, Next(c, w, e))
  {
    hide WellFormed, Integrity, Step, UsersOnDisk, ServicesOnDisk, Complete, Dangling, Mirror;
    MirrorStep(c, w, e);
    if e.Do? {
      StepWellFormed(c, w.mem, e.a);
      CompleteNotDangling(w, e);
      StepIntegrity(c, w.mem, e.a);
    }
  }

  /** INTEGRITY WITH RESTARTS. Over every run in which writes succeed, with restarts
      anywhere, files and memory agree and every restricted user's services are in the
      catalogue. */
  lemma {:induction false} IntegrityWithRestarts(c: Config, w: World, run: seq<Event>, i: nat)
    requires i <= |run| && Sound(c, w) && forall k :: 0 <= k < |run| ==> Complete(run[k])
    ensures Sound(c, WorldAt(c, w, run, i))
  {
    hide Sound, Next, Complete;
    if i > 0 {
      IntegrityWithRestarts(c, w, run, i - 1);
      SoundStep(c, WorldAt(c, w, run, i - 1), run[i - 1]);
    }
  }

  /** A request deletes a service from the catalogue's file and leaves it listed for some
      restricted user in the users' file. */
  ghost predicate LeftListed(c: Config, s: State, e: Event) {
    && e.Do? && Deletes(s, e.a) && e.a.written
    && exists name :: name in s.users && Restricted(s.users[name]) && NormalizeName(e.a.rawName) in s.users[name].allowed
                      && !Saves(c, e.a, e.stored, name)
  }

  /** The users on disk are known to the catalogue on disk. */
  ghost predicate DiskIntegrity(d: Disk) {
    Integrity(State(d.services, d.users))
  }

  lemma DiskAfterCreateUser(c: Config, w: World, e: Event)
    requires Sound(c, w) && e.Do? && e.a.CreateUser?
    ensures DiskIntegrity(Next(c, w, e).disk)
  {
    hide NormalizeAllowed, Valid, Named, Restricted;
    NewUserKnown(w.mem, e.a);
  }

  lemma NewUserKnown(s: State, a: Action)
    requires a.CreateUser?
    ensures ListsKnown(s.services, NewUser(s, a))
  {
    NormalizeAllowedMembers(s.services, NormalizeAllowed(s.services, a.names));
    hide NormalizeAllowed;
  }

  lemma DiskAfterUpdateAccess(c: Config, w: World, e: Event)
    requires Sound(c, w) && e.Do? && e.a.UpdateAccess?
    ensures DiskIntegrity(Next(c, w, e).disk)
  {
    NormalizeAllowedMembers(w.mem.services, NormalizeAllowed(w.mem.services, e.a.names));
    hide NormalizeAllowed, Valid, Named;
  }

  lemma DiskAfterDeleteUser(c: Config, w: World, e: Event)
    requires Sound(c, w) && e.Do? && e.a.DeleteUser?
    ensures DiskIntegrity(Next(c, w, e).disk)
  {
    hide Protected, Valid, Named, Restricted;
  }

  lemma DiskAfterService(c: Config, w: World, e: Event)
    requires Sound(c, w) && e.Do? && (e.a.CreateService? || e.a.UpdateService?)
    ensures DiskIntegrity(Next(c, w, e).disk)
  {
    hide Integrity, Step, Valid, Named, Built, Upserted, NeedsSecrets;
    ServicesGrow(c, w, e);
    MoreServicesKeepIntegrity(w.mem, Next(c, w, e).disk.services);
  }

  lemma ServicesGrow(c: Config, w: World, e: Event)
    requires Mirror(w) && Valid(c.urlOk, w.mem.services) && e.Do? && (e.a.CreateService? || e.a.UpdateService?)
    ensures w.mem.services.Keys <= Next(c, w, e).disk.services.Keys
    ensures Next(c, w, e).disk.users == w.mem.users
  {
    hide Valid, NormalizeName, NeedsSecrets, Upserted, Built;
    var s := w.mem;
    if e.a.CreateService? {
      if Built(c.urlOk, e.a.req, None).Some? {
        UpsertKeepsOthers(c.urlOk, s.services, Built(c.urlOk, e.a.req, None).value, "");
      }
    } else {
      var name := NormalizeName(e.a.rawName);
      if name in s.services && Built(c.urlOk, e.a.req.(name := name), Some(s.services[name])).Some? {
        UpsertKeepsOthers(c.urlOk, s.services, Built(c.urlOk, e.a.req.(name := name), Some(s.services[name])).value, "");
      }
    }
  }

  /** What a written deletion leaves on disk of one user. */
  lemma DropOnDiskOf(c: Config, w: World, e: Event, name: string)
    requires Sound(c, w) && e.Do? && Deletes(w.mem, e.a) && e.a.written && name in w.mem.users
    ensures name in Next(c, w, e).disk.users
    ensures Next(c, w, e).disk.users[name]
         == if Saves(c, e.a, e.stored, name) then DropFrom(w.mem.users[name], NormalizeName(e.a.rawName)) else w.mem.users[name]
  {
    hide WellFormed, Integrity, NormalizeName, DropFrom, Step;
  }

  lemma DiskAfterDeleteService(c: Config, w: World, e: Event)
    requires Sound(c, w) && e.Do? && e.a.DeleteService?
    ensures DiskIntegrity(Next(c, w, e).disk) <==> !LeftListed(c, w.mem, e)
  {
    hide WellFormed, NormalizeName, DropEverywhere, DropOnDisk, Saves;
    var s, d, service := w.mem, Next(c, w, e).disk, NormalizeName(e.a.rawName);
    if Deletes(s, e.a) && e.a.written {
      DiskKeepsUsers(c, w, e);
      forall name | name in s.users
        ensures name in d.users && Restricted(d.users[name]) == Restricted(s.users[name])
        ensures Restricted(s.users[name]) ==>
                  (ListsKnown(d.services, d.users[name]) <==> Saves(c, e.a, e.stored, name) || service !in s.users[name].allowed)
      {
        DropOnDiskOf(c, w, e, name);
        if Restricted(s.users[name]) {
          DropRemovesOne(c, s, service, name);
        }
      }
    }
  }

  lemma DiskKeepsUsers(c: Config, w: World, e: Event)
    requires Mirror(w) && e.Do? && Deletes(w.mem, e.a) && e.a.written
    ensures Next(c, w, e).disk.users.Keys == w.mem.users.Keys
    ensures Next(c, w, e).disk.services == w.mem.services - {NormalizeName(e.a.rawName)}
  {
    hide NormalizeName, DropFrom;
  }

  /** EXACTLY WHEN a restart finds integrity after one request, whatever writes of it
      failed: unless a service was deleted on disk and some user's record, listing it, was
      not saved. */
  lemma RestartIntegrity(c: Config, w: World, e: Event)
    requires Sound(c, w) && e.Do?
    ensures Integrity(Next(c, Next(c, w, e), Restart(true, true)).mem) <==> !LeftListed(c, w.mem, e)
  {
    hide Sound, Integrity, LeftListed;
    match e.a
    case CreateUser(_, _, _, _, _, _, _, _) =>
      DiskAfterCreateUser(c, w, e);
      OnlyDeletions(c, w, e);
    case UpdateAccess(_, _, _) =>
      DiskAfterUpdateAccess(c, w, e);
      OnlyDeletions(c, w, e);
    case DeleteUser(_, _) =>
      DiskAfterDeleteUser(c, w, e);
      OnlyDeletions(c, w, e);
    case DeleteService(_, _, _, _, _) => DiskAfterDeleteService(c, w, e);
    case _ =>
      DiskAfterService(c, w, e);
      OnlyDeletions(c, w, e);
  }

  lemma OnlyDeletions(c: Config, w: World, e: Event)
    requires e.Do? && !e.a.DeleteService?
    ensures !LeftListed(c, w.mem, e)
  {
  }

  /** A restart that cannot read the catalogue keeps integrity exactly if no restricted
      user that it reads lists anything. */
  lemma UnreadableCatalogue(c: Config, w: World, usersRead: bool)
    requires Sound(c, w)
    ensures Integrity(Next(c, w, Restart(false, usersRead)).mem) <==>
              !usersRead || forall name :: name in w.mem.users && Restricted(w.mem.users[name]) ==> w.mem.users[name].allowed == []
  {
    hide WellFormed, Restricted;
    var after := Next(c, w, Restart(false, usersRead)).mem;
    forall name | name in w.mem.users
      ensures ListsKnown(map[], w.mem.users[name]) <==> w.mem.users[name].allowed == []
    {
      NothingKnown(w.mem.users[name]);
    }
  }

  lemma NothingKnown(u: User)
    ensures ListsKnown(map[], u) <==> u.allowed == []
  {
    if u.allowed != [] {
      assert u.allowed[0] in u.allowed;
    }
  }

  // ---- a deleted service stays closed ------------------------------------

  /** The event asks for this service for this user while it is known and enabled. */
  predicate GrantsNow(w: World, e: Event, user: string, service: string) {
    e.Do? && Grants(w.mem, e.a, user, service)
  }

  lemma {:induction false} UnlistedAcrossRestarts(c: Config, w: World, run: seq<Event>, i: nat, j: nat, user: string, service: string)
    requires i <= j <= |run| && Sound(c, w) && forall k :: 0 <= k < |run| ==> Complete(run[k])
    requires !Listed(WorldAt(c, w, run, i).mem, user, service)
    requires forall k :: i <= k < j ==> !GrantsNow(WorldAt(c, w, run, k), run[k], user, service)
    ensures !Listed(WorldAt(c, w, run, j).mem, user, service)
  {
    hide Sound, Complete, Listed, Grants, Step, ServicesOnDisk, UsersOnDisk;
    if j > i {
      var before, e := WorldAt(c, w, run, j - 1), run[j - 1];
      UnlistedAcrossRestarts(c, w, run, i, j - 1, user, service);
      IntegrityWithRestarts(c, w, run, j - 1);
      SoundMirrors(c, before);
      MirrorStep(c, before, e);
      if e.Do? && Listed(Step(c, before.mem, e.a).0, user, service) {
        ListedByGrant(c, before.mem, e.a, user, service);
      }
    }
  }

  lemma SoundMirrors(c: Config, w: World)
    requires Sound(c, w)
    ensures Mirror(w) && WellFormed(c, w.mem) && Integrity(w.mem)
  {
  }

  /** A DELETED SERVICE STAYS CLOSED ACROSS RESTARTS. Over every run in which writes
      succeed, however often the gateway restarts and the service is created again, no
      restricted user reaches it until an admin grants it anew. */
  lemma ClosedAcrossRestarts(c: Config, w: World, run: seq<Event>, i: nat, j: nat, user: string)
    requires i < j <= |run| && Sound(c, w) && forall k :: 0 <= k < |run| ==> Complete(run[k])
    requires run[i].Do? && Deletes(WorldAt(c, w, run, i).mem, run[i].a)
    requires forall k :: i < k < j ==> !GrantsNow(WorldAt(c, w, run, k), run[k], user, NormalizeName(run[i].a.rawName))
    ensures var users := WorldAt(c, w, run, j).mem.users;
            user in users && Restricted(users[user]) ==> !CanAccess(users, user, NormalizeName(run[i].a.rawName))
  {
    hide Sound, Next, GrantsNow, NormalizeName, Complete, CanAccess;
    var e, service := run[i], NormalizeName(run[i].a.rawName);
    IntegrityWithRestarts(c, w, run, i);
    UnlistedAfterDeletion(c, WorldAt(c, w, run, i), e, user, service);
    UnlistedAcrossRestarts(c, w, run, i + 1, j, user, service);
    NotListedNoAccess(WorldAt(c, w, run, j).mem, user, service);
  }

  lemma UnlistedAfterDeletion(c: Config, w: World, e: Event, user: string, service: string)
    requires Sound(c, w) && Complete(e) && e.Do? && Deletes(w.mem, e.a) && service == NormalizeName(e.a.rawName)
    ensures !Listed(Next(c, w, e).mem, user, service)
  {
    hide Sound, Step, NormalizeName, ServicesOnDisk, UsersOnDisk, WellFormed, Integrity, Complete, Mirror, Listed;
    SoundMirrors(c, w);
    CompleteIsWritten(e);
    DeletionUnlists(c, w.mem, e.a, user);
  }

  lemma CompleteIsWritten(e: Event)
    requires Complete(e) && e.Do?
    ensures e.a.written
  {
  }

  lemma NotListedNoAccess(s: State, user: string, service: string)
    requires !Listed(s, user, service)
    ensures user in s.users && Restricted(s.users[user]) ==> !CanAccess(s.users, user, service)
  {
  }

  // ---- why every write has to succeed ------------------------------------

  /** An update whose write fails clears the list in memory only; the deletion that follows
      changes no list, so it writes no users; after a restart the user lists the deleted
      service. */
  lemma FailedUpdateDangles(urlOk: UrlCheck, svc: Service, user: User, stored: set<string>)
    requires Clean(urlOk, svc) && OnlyMember(svc, user) && !svc.hasSecret
    ensures var c := Config(urlOk, false);
            var s := OneOfEach(svc, user);
            var w := World(s, Disk(s.services, s.users));
            var run := [Do(UpdateAccess(user.name, [], false), true, stored),
                        Do(DeleteService(svc.name, false, true, true, true), true, stored), Restart(true, true)];
            Sound(c, w) && !Integrity(WorldAt(c, w, run, 3).mem)
  {
    hide Clean, NormalizeName, WellFormed, OnlyMember, Restricted;
    OneOfEachFits(urlOk, svc, user);
    var c, s := Config(urlOk, false), OneOfEach(svc, user);
    var w := World(s, Disk(s.services, s.users));
    var update, delete := UpdateAccess(user.name, [], false), DeleteService(svc.name, false, true, true, true);
    var run := [Do(update, true, stored), Do(delete, true, stored), Restart(true, true)];
    var w1 := Next(c, w, run[0]);
    var w2 := Next(c, w1, run[1]);
    Unfold(c, w, run);
    ClearedInMemory(c, svc, user, update);
    NothingToDrop(c, w1.mem, s.users, delete, stored);
    assert w2.disk.users == s.users && svc.name !in w2.disk.services;
    assert svc.name in s.users[user.name].allowed;
    assert !ListsKnown(w2.disk.services, s.users[user.name]);
  }

  lemma Unfold(c: Config, w: World, run: seq<Event>)
    requires |run| == 3
    ensures WorldAt(c, w, run, 3) == Next(c, Next(c, Next(c, w, run[0]), run[1]), run[2])
  {
    hide Next;
    assert WorldAt(c, w, run, 1) == Next(c, w, run[0]);
    assert WorldAt(c, w, run, 2) == Next(c, WorldAt(c, w, run, 1), run[1]);
  }

  lemma ClearedInMemory(c: Config, svc: Service, user: User, a: Action)
    requires OnlyMember(svc, user) && a == UpdateAccess(user.name, [], false)
    ensures Step(c, OneOfEach(svc, user), a).0 == State(map[svc.name := svc], map[user.name := user.(allowed := [])])
  {
    assert KnownNames(map[svc.name := svc], []) == [];
    assert NormalizeAllowed(map[svc.name := svc], []) == [];
  }

  /** A deletion that changes no list leaves the users' file alone. */
  lemma NothingToDrop(c: Config, s: State, disk: Users, a: Action, stored: set<string>)
    requires Deletes(s, a) && a.written && forall name :: name in s.users ==> s.users[name].allowed == []
    ensures UsersOnDisk(c, s, disk, a, stored) == disk
  {
    hide NormalizeName;
    assert DropEverywhere(s.users, NormalizeName(a.rawName)) == s.users;
  }
}
