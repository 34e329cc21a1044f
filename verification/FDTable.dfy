// The importer's descriptor table (pkg/importer/fdtable.go): what each
// (stream, fd) refers to, its reconstructed cursor, and fresh handle ids.
module FDTable {
  import opened Trace

  datatype FdKey = FdKey(stream: int, fd: int)

  // A directory entry has no handle and is kept only to resolve paths.
  datatype EntryState = EntryState(
    hasHandle: bool, handle: int, targetId: int, cursor: int, path: string, appendMode: bool)

  function DirEntry(path: string): EntryState {
    EntryState(false, 0, 0, 0, path, false)
  }

  function FileEntry(handle: int, targetId: int, path: string, appendMode: bool): EntryState {
    EntryState(true, handle, targetId, 0, path, appendMode)
  }

  class Entry {
    var state: EntryState

    constructor (state: EntryState)
      ensures this.state == state
    {
      this.state := state;
    }
  }

  class FDTable {
    var entries: map<FdKey, Entry>
    var nextHandle: int
    ghost var Repr: set<object>

    ghost predicate Valid()
      reads this, Repr
    {
      && this in Repr
      && (forall k :: k in entries ==> entries[k] in Repr)
      && (forall k, l :: k in entries && l in entries && k != l ==> entries[k] != entries[l])
    }

    // The table as a value.
    ghost function View(): map<FdKey, EntryState>
      requires Valid()
      reads this, Repr
    {
      map k | k in entries :: entries[k].state
    }

    constructor ()
      ensures Valid() && fresh(Repr)
      ensures View() == map[] && nextHandle == 0
    {
      entries, nextHandle := map[], 0;
      Repr := {this};
    }

    method Open(stream: int, fd: int, targetId: int, path: string, appendMode: bool) returns (h: int)
      requires Valid()
      modifies Repr
      ensures Valid() && fresh(Repr - old(Repr))
      ensures h == old(nextHandle) && nextHandle == old(nextHandle) + 1
      ensures View() == old(View())[FdKey(stream, fd) := FileEntry(h, targetId, path, appendMode)]
    {
      h := nextHandle;
      nextHandle := nextHandle + 1;
      var e := new Entry(FileEntry(h, targetId, path, appendMode));
      entries := entries[FdKey(stream, fd) := e];
      Repr := Repr + {e};
    }

    method OpenDir(stream: int, fd: int, path: string)
      requires Valid()
      modifies Repr
      ensures Valid() && fresh(Repr - old(Repr)) && nextHandle == old(nextHandle)
      ensures View() == old(View())[FdKey(stream, fd) := DirEntry(path)]
    {
      var e := new Entry(DirEntry(path));
      entries := entries[FdKey(stream, fd) := e];
      Repr := Repr + {e};
    }

    method Resolve(stream: int, fd: int) returns (e: Option<EntryState>)
      requires Valid()
      ensures e == LookUp(View(), stream, fd)
    {
      var k := FdKey(stream, fd);
      e := if k in entries then Some(entries[k].state) else None;
    }

    // Moves the cursor forward; nothing happens for an untracked descriptor.
    method Advance(stream: int, fd: int, n: int)
      requires Valid()
      modifies Repr
      ensures Valid() && Repr == old(Repr) && nextHandle == old(nextHandle)
      ensures View() == WithCursor(old(View()), stream, fd, Cursor(old(View()), stream, fd) + n)
    {
      var k := FdKey(stream, fd);
      if k in entries {
        var e := entries[k];
        e.state := e.state.(cursor := e.state.cursor + n);
      }
    }

    method SetCursor(stream: int, fd: int, pos: int)
      requires Valid()
      modifies Repr
      ensures Valid() && Repr == old(Repr) && nextHandle == old(nextHandle)
      ensures View() == WithCursor(old(View()), stream, fd, pos)
    {
      var k := FdKey(stream, fd);
      if k in entries {
        var e := entries[k];
        e.state := e.state.(cursor := pos);
      }
    }

    // The handle the descriptor held, if it held one.
    method Close(stream: int, fd: int) returns (handle: Option<int>)
      requires Valid()
      modifies Repr
      ensures Valid() && Repr == old(Repr) && nextHandle == old(nextHandle)
      ensures View() == old(View()) - {FdKey(stream, fd)}
      ensures handle == HandleOf(LookUp(old(View()), stream, fd))
    {
      var k := FdKey(stream, fd);
      if k !in entries {
        return None;
      }
      var e := entries[k];
      entries := entries - {k};
      handle := if e.state.hasHandle then Some(e.state.handle) else None;
    }
  }

  function LookUp(view: map<FdKey, EntryState>, stream: int, fd: int): Option<EntryState> {
    if FdKey(stream, fd) in view then Some(view[FdKey(stream, fd)]) else None
  }

  function HandleOf(e: Option<EntryState>): Option<int> {
    if e.Some? && e.value.hasHandle then Some(e.value.handle) else None
  }

  function Cursor(view: map<FdKey, EntryState>, stream: int, fd: int): int {
    if FdKey(stream, fd) in view then view[FdKey(stream, fd)].cursor else 0
  }

  function WithCursor(view: map<FdKey, EntryState>, stream: int, fd: int, pos: int): map<FdKey, EntryState> {
    var k := FdKey(stream, fd);
    if k in view then view[k := view[k].(cursor := pos)] else view
  }
}
