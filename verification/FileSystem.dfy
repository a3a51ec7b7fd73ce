/** Regular files on one file system: names refer to inodes, inodes hold bytes.
    Staging, candidate and final names can share an inode while hard-linked. */
module FileSystem {
  import opened Prelude
  import opened Database

  datatype Name =
    | Staging(item: Url)
    | Candidate(item: Url, serial: nat)
    | Final(path: Path)

  // `controls` holds the names that have an engine control file (`.aria2`) beside them.
  datatype Files = Files(names: map<Name, nat>, data: map<nat, Bytes>, controls: set<Name>) {

    ghost predicate Valid() {
      forall n | n in names :: names[n] in data
    }

    function Content(n: Name): Bytes
      requires n in names && names[n] in data
    {
      data[names[n]]
    }

    // link(2): fails in the source if `to` exists, so callers test that first.
    function Link(from: Name, to: Name): Files
      requires from in names
    {
      this.(names := names[to := names[from]])
    }

    function Unlink(n: Name): Files {
      this.(names := names - {n})
    }

    function Create(n: Name, inode: nat, bytes: Bytes): Files {
      this.(names := names[n := inode], data := data[inode := bytes])
    }

    function Write(n: Name, bytes: Bytes): Files
      requires n in names
    {
      this.(data := data[names[n] := bytes])
    }

    // os.replace of the control file, when there is one.
    function MoveControl(from: Name, to: Name): Files {
      if from in controls then this.(controls := controls - {from} + {to}) else this
    }
  }
}
