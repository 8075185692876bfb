/** client/node.h and client/request.h: what the client knows of one file.

    Nodes are copied wherever they are passed or stored, so they are values here; the setters give
    the node as it is afterwards. A node parsed from a snapshot has no size and no time: the
    program leaves those fields unset, `size` is `None` and the time is whatever it is. */
module Nodes {
  import opened Wire
  import opened Numbers
  import opened Option

  datatype Node = Node(path: string, isDir: bool, hashes: seq<string>, size: Option<nat>, time: int) {

    /** `getLastHash`; the program has no answer for a node without a hash, neither has this. */
    function LastHash(): string
      requires |hashes| > 0
    {
      hashes[|hashes| - 1]
    }

    function SetLastHash(hash: string): Node { this.(hashes := hashes + [hash]) }

    function SetLastWriteTime(t: int): Node { this.(time := t) }

    function SetSize(s: nat): Node { this.(size := Some(s)) }

    function AbsolutePath(): string { Absolute(path) }

    /** `toPathSizeTimeHash`: the parameters of a PUT after its command word. */
    function PathSizeTimeHash(): string
      requires size.Some? && |hashes| > 0
    {
      AbsolutePath() + PARAM_DELIMITER + ToString(size.value) + PARAM_DELIMITER + ToString(time)
      + PARAM_DELIMITER + LastHash()
    }
  }

  datatype Method = SNAPSHOT | GET | PUT | PATCH | DELETE

  datatype Request = Request(verb: Method, node: Node)

  const COMPOSE_FILE := "docker-compose.yml"

  /** A local path is the path on the wire with ".." before it. */
  predicate IsLocal(key: string) {
    |key| >= 3 && key[..3] == "../"
  }

  predicate IsRemote(key: string) {
    |key| >= 1 && key[0] == '/'
  }

  function Absolute(path: string): string {
    if IsLocal(path) then path[2..] else path
  }

  /** The key of the local copy of a path on the wire. */
  function LocalKey(remote: string): string { ".." + remote }

  /** `erase(0, 2)` */
  function RemoteKey(local: string): string {
    if |local| < 2 then "" else local[2..]
  }

  /** `getName`: what follows the last slash. */
  function NameOf(path: string): string {
    if |path| == 0 then "" 
    else if path[|path| - 1] == '/' then ""
    else NameOf(path[..|path| - 1]) + [path[|path| - 1]]
  }

  /** Prefixing with ".." and erasing two characters are inverse on the two kinds of key. */
  lemma KeysCorrespond(local: string, remote: string)
    requires IsLocal(local) && IsRemote(remote)
    ensures IsRemote(RemoteKey(local)) && LocalKey(RemoteKey(local)) == local
    ensures IsLocal(LocalKey(remote)) && RemoteKey(LocalKey(remote)) == remote
    ensures Absolute(local) == RemoteKey(local) && Absolute(remote) == remote
    ensures LocalKey(remote) == local <==> remote == RemoteKey(local)
  {
    assert local[..3] == "../" ==> local[0] == '.' && local[1] == '.' && local[2] == '/';
    assert ".." + local[2..] == local;
    assert (".." + remote)[2..] == remote;
    assert (".." + remote)[..3] == "../";
  }

  /** The two forms of a key, letter by letter. */
  lemma KeyForms(path: string)
    ensures !(exists rest :: path == "../" + rest) ==> Absolute(path) == path
    ensures LocalKey(path) == ".." + path && RemoteKey(".." + path) == path
    ensures Absolute("../" + path) == "/" + path && Absolute("/" + path) == "/" + path
  {
    if IsLocal(path) { assert path == "../" + path[3..]; }
    assert ("../" + path)[..3] == "../" && ("../" + path)[2..] == "/" + path;
    assert ("/" + path)[0] == '/';
    assert (".." + path)[2..] == path;
  }

  /** The name is what follows the last slash, or all there is if there is none. */
  lemma {:induction false} NameIsLast(dir: string, name: string)
    requires forall i :: 0 <= i < |name| ==> name[i] != '/'
    ensures NameOf(dir + "/" + name) == name && NameOf(name) == name
  {
    if |name| > 0 {
      var n := |name| - 1;
      NameIsLast(dir, name[..n]);
      assert (dir + "/" + name)[..|dir| + 1 + n] == dir + "/" + name[..n];
      assert name == name[..n] + [name[n]];
    } else {
      assert dir + "/" + name == dir + "/";
    }
  }

  lemma {:induction false} NameIgnoresDots(remote: string)
    requires IsRemote(remote)
    ensures NameOf(LocalKey(remote)) == NameOf(remote)
  {
    var local := LocalKey(remote);
    if |remote| == 1 || remote[|remote| - 1] == '/' {
      assert local[|local| - 1] == remote[|remote| - 1];
    } else {
      assert local[..|local| - 1] == LocalKey(remote[..|remote| - 1]);
      NameIgnoresDots(remote[..|remote| - 1]);
    }
  }
}
