/**
 * The camera registry as the service sees it: a devices table whose
 * identities are issued in increasing order, looked up by identity or by
 * stream URL, and the service's start-up registration of configured
 * cameras, which creates a camera only when its URL is not yet known.
 */
module CameraRepository {
  import opened Wrappers
  import opened Models

  /** The devices table in identity order, and the identity the next insert receives. */
  datatype CameraRepo = CameraRepo(cameras: seq<Camera>, nextId: int)

  /** Identities increase along the table and stay below the next one to be issued. */
  predicate Valid(repo: CameraRepo) {
    && (forall i, j :: 0 <= i < j < |repo.cameras| ==> repo.cameras[i].deviceId < repo.cameras[j].deviceId)
    && (forall i :: 0 <= i < |repo.cameras| ==> repo.cameras[i].deviceId < repo.nextId)
  }

  /**
   * `findByRtspUrl`: the camera with that URL and the lowest identity. The
   * table is in identity order, so that is the first match.
   */
  function FindByRtspUrl(cameras: seq<Camera>, url: string): (r: Option<Camera>)
    ensures r.None? <==> forall i :: 0 <= i < |cameras| ==> cameras[i].rtspUrl != url
    ensures r.Some? ==> r.value in cameras && r.value.rtspUrl == url
    decreases |cameras|
  {
    if |cameras| == 0 then None
    else if cameras[0].rtspUrl == url then Some(cameras[0])
    else FindByRtspUrl(cameras[1..], url)
  }

  /** The camera found is the first row with that URL. */
  lemma {:induction false} FoundIsFirst(cameras: seq<Camera>, url: string)
    requires FindByRtspUrl(cameras, url).Some?
    ensures exists i :: 0 <= i < |cameras| && cameras[i] == FindByRtspUrl(cameras, url).value &&
                        forall k :: 0 <= k < i ==> cameras[k].rtspUrl != url
    decreases |cameras|
  {
    if cameras[0].rtspUrl != url {
      FoundIsFirst(cameras[1..], url);
      var i :| 0 <= i < |cameras[1..]| && cameras[1..][i] == FindByRtspUrl(cameras[1..], url).value &&
               forall k :: 0 <= k < i ==> cameras[1..][k].rtspUrl != url;
      assert cameras[i + 1] == FindByRtspUrl(cameras, url).value;
      assert forall k :: 0 <= k < i + 1 ==> cameras[k].rtspUrl != url by {
        forall k | 0 <= k < i + 1 ensures cameras[k].rtspUrl != url {
          if k > 0 { assert cameras[k] == cameras[1..][k - 1]; }
        }
      }
    } else {
      assert cameras[0] == FindByRtspUrl(cameras, url).value;
    }
  }

  /** With identities increasing, the camera found has the lowest identity among those with that URL. */
  lemma {:induction false} FoundHasLowestId(repo: CameraRepo, url: string)
    requires Valid(repo)
    requires FindByRtspUrl(repo.cameras, url).Some?
    ensures forall c :: c in repo.cameras && c.rtspUrl == url ==>
              FindByRtspUrl(repo.cameras, url).value.deviceId <= c.deviceId
  {
    var found := FindByRtspUrl(repo.cameras, url).value;
    FoundIsFirst(repo.cameras, url);
    var i :| 0 <= i < |repo.cameras| && repo.cameras[i] == found &&
             forall k :: 0 <= k < i ==> repo.cameras[k].rtspUrl != url;
    forall c | c in repo.cameras && c.rtspUrl == url
      ensures found.deviceId <= c.deviceId
    {
      var j :| 0 <= j < |repo.cameras| && repo.cameras[j] == c;
      assert i <= j;
    }
  }

  /** A URL found keeps being found, as the same camera, however many rows are added after it. */
  lemma {:induction false} FoundStaysFound(cameras: seq<Camera>, more: seq<Camera>, url: string)
    requires FindByRtspUrl(cameras, url).Some?
    ensures FindByRtspUrl(cameras + more, url) == FindByRtspUrl(cameras, url)
    decreases |cameras|
  {
    if cameras[0].rtspUrl != url {
      assert (cameras + more)[1..] == cameras[1..] + more;
      FoundStaysFound(cameras[1..], more, url);
    }
  }

  /** A URL no row carries is found at a row appended with it. */
  lemma {:induction false} FoundAtEnd(cameras: seq<Camera>, c: Camera)
    requires forall i :: 0 <= i < |cameras| ==> cameras[i].rtspUrl != c.rtspUrl
    ensures FindByRtspUrl(cameras + [c], c.rtspUrl) == Some(c)
    decreases |cameras|
  {
    if |cameras| > 0 {
      assert (cameras + [c])[1..] == cameras[1..] + [c];
      FoundAtEnd(cameras[1..], c);
    }
  }

  /** `findById`: the camera with that identity, if any. */
  function FindById(repo: CameraRepo, deviceId: int): (r: Option<Camera>)
    ensures r.Some? <==> exists i :: 0 <= i < |repo.cameras| && repo.cameras[i].deviceId == deviceId
    ensures r.Some? ==> r.value in repo.cameras && r.value.deviceId == deviceId
    decreases |repo.cameras|
  {
    if |repo.cameras| == 0 then None
    else if repo.cameras[0].deviceId == deviceId then Some(repo.cameras[0])
    else FindById(CameraRepo(repo.cameras[1..], repo.nextId), deviceId)
  }

  /** `listAll`: every camera, in increasing identity order. */
  function ListAll(repo: CameraRepo): (r: seq<Camera>)
    requires Valid(repo)
    ensures forall i, j :: 0 <= i < j < |r| ==> r[i].deviceId < r[j].deviceId
    ensures forall c :: c in r <==> c in repo.cameras
  {
    repo.cameras
  }

  /** The row `create` inserts, stamped with the database's current date. */
  function NewCamera(deviceId: int, command: RegisterCameraCommand, addDate: string): Camera {
    Camera(deviceId, command.cameraType, addDate, command.caption, command.rtspUrl,
           command.assignedNodeId, command.status)
  }

  /** `create`: inserts the command under the next identity and answers that identity. */
  function Create(repo: CameraRepo, command: RegisterCameraCommand, addDate: string): (r: (CameraRepo, int))
    requires Valid(repo)
    ensures Valid(r.0)
    ensures r.1 == repo.nextId && r.0.nextId > r.1
    ensures r.0.cameras == repo.cameras + [NewCamera(r.1, command, addDate)]
    ensures FindById(repo, r.1).None?
  {
    (CameraRepo(repo.cameras + [NewCamera(repo.nextId, command, addDate)], repo.nextId + 1), repo.nextId)
  }
}

module CameraService {
  import opened Wrappers
  import opened Models
  import opened CameraRepository

  /** `findById` answers whatever the repository answers. */
  function FindCamera(repo: CameraRepo, deviceId: int): (r: Option<Camera>)
    ensures r == CameraRepository.FindById(repo, deviceId)
  {
    CameraRepository.FindById(repo, deviceId)
  }

  /** `listAll` answers whatever the repository answers. */
  function ListCameras(repo: CameraRepo): (r: seq<Camera>)
    requires Valid(repo)
    ensures r == CameraRepository.ListAll(repo)
  {
    CameraRepository.ListAll(repo)
  }

  /** The commands that are registered: those with a stream URL, in order. */
  function WithUrl(commands: seq<RegisterCameraCommand>): (r: seq<RegisterCameraCommand>)
    ensures |r| <= |commands|
    decreases |commands|
  {
    if |commands| == 0 then []
    else if commands[0].rtspUrl == "" then WithUrl(commands[1..])
    else [commands[0]] + WithUrl(commands[1..])
  }

  /** Exactly the commands with a non-empty URL are kept. */
  lemma {:induction false} WithUrlKeeps(commands: seq<RegisterCameraCommand>, c: RegisterCameraCommand)
    ensures c in WithUrl(commands) <==> c in commands && c.rtspUrl != ""
    decreases |commands|
  {
    if |commands| > 0 {
      WithUrlKeeps(commands[1..], c);
      assert commands == [commands[0]] + commands[1..];
    }
  }

  /** Rows from index `from` on carry URLs that appear in no earlier row. */
  predicate NewUrlsFrom(cameras: seq<Camera>, from: nat) {
    forall i, j :: 0 <= i < j < |cameras| && from <= j ==> cameras[i].rtspUrl != cameras[j].rtspUrl
  }

  /** The repository after registration and one identity per registered command. */
  datatype Registration = Registration(repo: CameraRepo, deviceIds: seq<int>)

  /**
   * One command with a URL: a known URL answers the identity of the camera
   * found, without inserting; an unknown one is created.
   */
  function RegisterOne(repo: CameraRepo, command: RegisterCameraCommand, addDate: string): (r: (CameraRepo, int))
    requires Valid(repo) && command.rtspUrl != ""
    ensures Valid(r.0)
    ensures FindByRtspUrl(repo.cameras, command.rtspUrl).Some? ==>
              r == (repo, FindByRtspUrl(repo.cameras, command.rtspUrl).value.deviceId)
    ensures FindByRtspUrl(repo.cameras, command.rtspUrl).None? ==>
              r.0.cameras == repo.cameras + [NewCamera(r.1, command, addDate)] && r.1 == repo.nextId
    ensures FindByRtspUrl(r.0.cameras, command.rtspUrl).Some?
    ensures FindByRtspUrl(r.0.cameras, command.rtspUrl).value.deviceId == r.1
  {
    match FindByRtspUrl(repo.cameras, command.rtspUrl)
    case Some(existing) => (repo, existing.deviceId)
    case None =>
      var (created, id) := Create(repo, command, addDate);
      FoundAtEnd(repo.cameras, NewCamera(id, command, addDate));
      (created, id)
  }

  /**
   * `registerFromConfig`: commands without a URL are skipped; every other
   * one is registered in turn, and its identity answered in input order.
   * `addDate` is the database's current date.
   */
  function RegisterFromConfig(repo: CameraRepo, commands: seq<RegisterCameraCommand>, addDate: string)
    : (r: Registration)
    requires Valid(repo)
    ensures Valid(r.repo)
    ensures |r.deviceIds| == |WithUrl(commands)|
    ensures repo.cameras <= r.repo.cameras
    decreases |commands|
  {
    if |commands| == 0 then Registration(repo, [])
    else if commands[0].rtspUrl == "" then RegisterFromConfig(repo, commands[1..], addDate)
    else
      var step := RegisterOne(repo, commands[0], addDate);
      var rest := RegisterFromConfig(step.0, commands[1..], addDate);
      Registration(rest.repo, [step.1] + rest.deviceIds)
  }

  /** The identity a lookup of the URL answers, if it finds a camera. */
  function IdOfUrl(cameras: seq<Camera>, url: string): Option<int> {
    match FindByRtspUrl(cameras, url)
    case None => None
    case Some(c) => Some(c.deviceId)
  }

  /** Each registered command's URL looks up, in `cameras`, the identity answered for it. */
  predicate Resolves(cameras: seq<Camera>, registered: seq<RegisterCameraCommand>, ids: seq<int>) {
    && |ids| == |registered|
    && forall k :: 0 <= k < |ids| ==> IdOfUrl(cameras, registered[k].rtspUrl) == Some(ids[k])
  }

  /** Resolution of a list from that of its head and of its tail. */
  lemma {:induction false} ResolvesCons(cameras: seq<Camera>, command: RegisterCameraCommand, registered: seq<RegisterCameraCommand>,
                     id: int, ids: seq<int>)
    requires IdOfUrl(cameras, command.rtspUrl) == Some(id)
    requires Resolves(cameras, registered, ids)
    ensures Resolves(cameras, [command] + registered, [id] + ids)
  {
    var all, allIds := [command] + registered, [id] + ids;
    forall k | 0 <= k < |allIds|
      ensures IdOfUrl(cameras, all[k].rtspUrl) == Some(allIds[k])
    {
      if k > 0 {
        assert all[k] == registered[k - 1] && allIds[k] == ids[k - 1];
      }
    }
  }

  /** Resolution of a list gives that of its head and of its tail. */
  lemma {:induction false} ResolvesUncons(cameras: seq<Camera>, command: RegisterCameraCommand, registered: seq<RegisterCameraCommand>,
                       ids: seq<int>)
    requires Resolves(cameras, [command] + registered, ids)
    ensures |ids| > 0 && IdOfUrl(cameras, command.rtspUrl) == Some(ids[0])
    ensures Resolves(cameras, registered, ids[1..])
  {
    var all := [command] + registered;
    assert all[0] == command;
    forall k | 0 <= k < |registered|
      ensures IdOfUrl(cameras, registered[k].rtspUrl) == Some(ids[1..][k])
    {
      assert registered[k] == all[k + 1];
    }
  }

  /** Resolution survives rows appended to the table. */
  lemma {:induction false} ResolvesExtended(cameras: seq<Camera>, more: seq<Camera>, registered: seq<RegisterCameraCommand>, ids: seq<int>)
    requires Resolves(cameras, registered, ids)
    ensures Resolves(cameras + more, registered, ids)
  {
    forall k | 0 <= k < |ids|
      ensures IdOfUrl(cameras + more, registered[k].rtspUrl) == Some(ids[k])
    {
      FoundStaysFound(cameras, more, registered[k].rtspUrl);
    }
  }

  /**
   * Every registered command's identity is that of the camera a lookup of
   * its URL finds afterwards: the camera found before, or the one created.
   */
  lemma {:induction false} RegisteredIdsResolve(repo: CameraRepo, commands: seq<RegisterCameraCommand>, addDate: string)
    requires Valid(repo)
    ensures var r := RegisterFromConfig(repo, commands, addDate);
            Resolves(r.repo.cameras, WithUrl(commands), r.deviceIds)
    decreases |commands|
  {
    if |commands| > 0 {
      if commands[0].rtspUrl == "" {
        RegisteredIdsResolve(repo, commands[1..], addDate);
      } else {
        var step := RegisterOne(repo, commands[0], addDate);
        var rest := RegisterFromConfig(step.0, commands[1..], addDate);
        assert RegisterFromConfig(repo, commands, addDate) == Registration(rest.repo, [step.1] + rest.deviceIds);
        RegisteredIdsResolve(step.0, commands[1..], addDate);
        HeadStillResolves(repo, commands[0], addDate, rest.repo.cameras);
        assert WithUrl(commands) == [commands[0]] + WithUrl(commands[1..]);
        ResolvesCons(rest.repo.cameras, commands[0], WithUrl(commands[1..]), step.1, rest.deviceIds);
      }
    }
  }

  /** The identity one registration answers is still what its URL looks up once more rows follow. */
  lemma {:induction false} HeadStillResolves(repo: CameraRepo, command: RegisterCameraCommand, addDate: string, later: seq<Camera>)
    requires Valid(repo) && command.rtspUrl != ""
    requires RegisterOne(repo, command, addDate).0.cameras <= later
    ensures IdOfUrl(later, command.rtspUrl) == Some(RegisterOne(repo, command, addDate).1)
  {
    var next := RegisterOne(repo, command, addDate).0;
    var added := later[|next.cameras|..];
    assert next.cameras + added == later;
    FoundStaysFound(next.cameras, added, command.rtspUrl);
  }

  /** Registration inserts only URLs that were not stored, each once. */
  lemma {:induction false} OnlyNewUrlsInserted(repo: CameraRepo, commands: seq<RegisterCameraCommand>, addDate: string)
    requires Valid(repo)
    ensures NewUrlsFrom(RegisterFromConfig(repo, commands, addDate).repo.cameras, |repo.cameras|)
    decreases |commands|
  {
    if |commands| > 0 {
      if commands[0].rtspUrl == "" {
        OnlyNewUrlsInserted(repo, commands[1..], addDate);
      } else {
        var next := RegisterOne(repo, commands[0], addDate).0;
        var after := RegisterFromConfig(next, commands[1..], addDate).repo.cameras;
        assert RegisterFromConfig(repo, commands, addDate).repo.cameras == after;
        OnlyNewUrlsInserted(next, commands[1..], addDate);
        NewUrlsBehindOne(repo, commands[0], addDate, after);
      }
    }
  }

  /**
   * One registration followed by rows that bring only new URLs: everything
   * after the original rows brings only new URLs.
   */
  lemma {:induction false} NewUrlsBehindOne(repo: CameraRepo, command: RegisterCameraCommand, addDate: string, after: seq<Camera>)
    requires Valid(repo) && command.rtspUrl != ""
    requires RegisterOne(repo, command, addDate).0.cameras <= after
    requires NewUrlsFrom(after, |RegisterOne(repo, command, addDate).0.cameras|)
    ensures NewUrlsFrom(after, |repo.cameras|)
  {
    var next := RegisterOne(repo, command, addDate).0;
    var n := |repo.cameras|;
    forall i, j | 0 <= i < j < |after| && n <= j
      ensures after[i].rtspUrl != after[j].rtspUrl
    {
      if j < |next.cameras| {
        NewRowIsNewUrl(repo, command, addDate, i);
        assert after[i] == next.cameras[i] && after[j] == next.cameras[j];
      }
    }
  }

  /** The row one registration inserts, if any, carries a URL no earlier row carries. */
  lemma {:induction false} NewRowIsNewUrl(repo: CameraRepo, command: RegisterCameraCommand, addDate: string, i: nat)
    requires Valid(repo) && command.rtspUrl != ""
    requires i < |repo.cameras|
    ensures var next := RegisterOne(repo, command, addDate).0;
            |next.cameras| > |repo.cameras| ==>
              next.cameras[i] == repo.cameras[i] && next.cameras[i].rtspUrl != next.cameras[|repo.cameras|].rtspUrl
  {
  }

  /** A URL given twice in one registration is answered with the same identity both times. */
  lemma {:induction false} SameUrlSameId(repo: CameraRepo, commands: seq<RegisterCameraCommand>, addDate: string, k: nat, m: nat)
    requires Valid(repo)
    requires k < |WithUrl(commands)| && m < |WithUrl(commands)|
    requires WithUrl(commands)[k].rtspUrl == WithUrl(commands)[m].rtspUrl
    ensures var r := RegisterFromConfig(repo, commands, addDate);
            r.deviceIds[k] == r.deviceIds[m]
  {
    RegisteredIdsResolve(repo, commands, addDate);
  }

  /**
   * Registration never duplicates a camera: if no URL was stored twice
   * before, none is after, and a URL already stored is never inserted again.
   */
  lemma {:induction false} NoDuplicateUrls(repo: CameraRepo, commands: seq<RegisterCameraCommand>, addDate: string)
    requires Valid(repo)
    requires NewUrlsFrom(repo.cameras, 0)
    ensures NewUrlsFrom(RegisterFromConfig(repo, commands, addDate).repo.cameras, 0)
  {
    var after := RegisterFromConfig(repo, commands, addDate).repo.cameras;
    OnlyNewUrlsInserted(repo, commands, addDate);
    var n := |repo.cameras|;
    forall i, j | 0 <= i < j < |after|
      ensures after[i].rtspUrl != after[j].rtspUrl
    {
      if j < n {
        assert after[..n] == repo.cameras;
        assert after[i] == repo.cameras[i] && after[j] == repo.cameras[j];
      }
    }
  }

  /**
   * When every URL of the commands is already stored, registration inserts
   * nothing and answers the identities the lookups give.
   */
  lemma {:induction false} AllKnownInsertsNothing(repo: CameraRepo, commands: seq<RegisterCameraCommand>,
                                                  addDate: string, ids: seq<int>)
    requires Valid(repo)
    requires Resolves(repo.cameras, WithUrl(commands), ids)
    ensures RegisterFromConfig(repo, commands, addDate) == Registration(repo, ids)
    decreases |commands|
  {
    if |commands| > 0 {
      if commands[0].rtspUrl == "" {
        SkipBlankUrl(repo, commands, addDate);
        AllKnownInsertsNothing(repo, commands[1..], addDate, ids);
      } else {
        KnownHead(repo, commands, addDate, ids);
        AllKnownInsertsNothing(repo, commands[1..], addDate, ids[1..]);
        KnownHeadRegistration(repo, commands, addDate, ids);
      }
    }
  }

  /** A command without a URL is skipped by both the filter and the registration. */
  lemma {:induction false} SkipBlankUrl(repo: CameraRepo, commands: seq<RegisterCameraCommand>, addDate: string)
    requires Valid(repo) && |commands| > 0 && commands[0].rtspUrl == ""
    ensures WithUrl(commands) == WithUrl(commands[1..])
    ensures RegisterFromConfig(repo, commands, addDate) == RegisterFromConfig(repo, commands[1..], addDate)
  {
  }

  /** A head whose URL is stored is answered the stored identity; the tail still resolves. */
  lemma {:induction false} KnownHead(repo: CameraRepo, commands: seq<RegisterCameraCommand>, addDate: string, ids: seq<int>)
    requires Valid(repo) && |commands| > 0 && commands[0].rtspUrl != ""
    requires Resolves(repo.cameras, WithUrl(commands), ids)
    ensures |ids| > 0 && RegisterOne(repo, commands[0], addDate) == (repo, ids[0])
    ensures Resolves(repo.cameras, WithUrl(commands[1..]), ids[1..])
  {
    assert WithUrl(commands) == [commands[0]] + WithUrl(commands[1..]);
    ResolvesUncons(repo.cameras, commands[0], WithUrl(commands[1..]), ids);
    KnownUrl(repo, commands[0], addDate, ids[0]);
  }

  /** A command whose URL is stored is answered the stored identity, and nothing is inserted. */
  lemma {:induction false} KnownUrl(repo: CameraRepo, command: RegisterCameraCommand, addDate: string, id: int)
    requires Valid(repo) && command.rtspUrl != ""
    requires IdOfUrl(repo.cameras, command.rtspUrl) == Some(id)
    ensures RegisterOne(repo, command, addDate) == (repo, id)
  {
    var found := FindByRtspUrl(repo.cameras, command.rtspUrl);
    assert found.Some? && found.value.deviceId == id;
  }

  /** A stored head followed by a tail that inserts nothing: the whole list inserts nothing. */
  lemma {:induction false} KnownHeadRegistration(repo: CameraRepo, commands: seq<RegisterCameraCommand>, addDate: string, ids: seq<int>)
    requires Valid(repo) && |commands| > 0 && commands[0].rtspUrl != "" && |ids| > 0
    requires RegisterOne(repo, commands[0], addDate) == (repo, ids[0])
    requires RegisterFromConfig(repo, commands[1..], addDate) == Registration(repo, ids[1..])
    ensures RegisterFromConfig(repo, commands, addDate) == Registration(repo, ids)
  {
    RegisterFromConfigStep(repo, commands, addDate);
    assert [ids[0]] + ids[1..] == ids;
  }

  /** One step of the registration loop on a head that has a URL. */
  lemma {:induction false} RegisterFromConfigStep(repo: CameraRepo, commands: seq<RegisterCameraCommand>, addDate: string)
    requires Valid(repo) && |commands| > 0 && commands[0].rtspUrl != ""
    ensures var step := RegisterOne(repo, commands[0], addDate);
            var rest := RegisterFromConfig(step.0, commands[1..], addDate);
            RegisterFromConfig(repo, commands, addDate) == Registration(rest.repo, [step.1] + rest.deviceIds)
  {
  }

  /** Registering the same configuration a second time inserts nothing and answers the same identities. */
  lemma {:induction false} RegistrationIdempotent(repo: CameraRepo, commands: seq<RegisterCameraCommand>, addDate: string)
    requires Valid(repo)
    ensures var first := RegisterFromConfig(repo, commands, addDate);
            RegisterFromConfig(first.repo, commands, addDate) == first
  {
    RegisteredIdsResolve(repo, commands, addDate);
    var first := RegisterFromConfig(repo, commands, addDate);
    AllKnownInsertsNothing(first.repo, commands, addDate, first.deviceIds);
  }
}
