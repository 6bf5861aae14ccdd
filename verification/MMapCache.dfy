/** The window cache (lib/mmap/mmap-cache.c): windows into files, linked into the list
    of their file, into the list of unused windows, and to the contexts that use them. */
module MMapCache {
  import opened JournalDef
  import opened Lists
  import opened Pages

  const WINDOWS_MIN: nat := 64
  const WINDOW_SIZE: nat := 8 * 1024 * 1024

  // ---------- where a window goes ----------

  /** Where the window for a request starts: at its page, or as much earlier as puts it in the middle of the window. */
  function WindowStart(offset: nat, size: nat): nat {
    var pages := PageAlign(size + (offset - PageFloor(offset)));
    if pages >= WINDOW_SIZE then PageFloor(offset)
    else
      var delta := PageAlign((WINDOW_SIZE - pages) / 2);
      if delta > offset then 0 else PageFloor(offset) - delta
  }

  /** The window for a request: whole pages around it, at least WINDOW_SIZE, and with the request
      in its middle unless the file starts too close. */
  method PlaceWindow(offset: nat, size: nat) returns (woffset: nat, wsize: nat)
    requires size > 0
    ensures woffset % PAGE_SIZE == 0 && wsize % PAGE_SIZE == 0 && wsize >= WINDOW_SIZE
    ensures woffset <= offset && offset + size <= woffset + wsize
    ensures woffset == WindowStart(offset, size)
    ensures wsize > WINDOW_SIZE ==> wsize < size + 2 * PAGE_SIZE
    ensures wsize == WINDOW_SIZE && woffset > 0 ==>
              -2 * PAGE_SIZE <= (offset - woffset) - (woffset + wsize - offset - size) <= 4 * PAGE_SIZE
  {
    woffset := PageFloor(offset);
    wsize := size + (offset - woffset);
    wsize := PageAlign(wsize);
    if wsize < WINDOW_SIZE {
      var delta := PageAlign((WINDOW_SIZE - wsize) / 2);
      if delta > offset {
        woffset := 0;
      } else {
        woffset := woffset - delta;
      }
      wsize := WINDOW_SIZE;
    }
  }

  /** A window must not reach beyond the last page of the file. */
  method ClampWindow(woffset: nat, wsize: nat, fileSize: nat) returns (wsize': nat)
    requires woffset % PAGE_SIZE == 0 && wsize % PAGE_SIZE == 0 && woffset < fileSize
    ensures wsize' % PAGE_SIZE == 0 && wsize' <= wsize
    ensures woffset + wsize' == if woffset + wsize > fileSize then PageAlign(fileSize) else woffset + wsize
    ensures woffset + wsize' <= PageAlign(fileSize)
  {
    wsize' := wsize;
    if woffset + wsize > fileSize {
      wsize' := PageAlign(fileSize - woffset);
    }
  }

  // ---------- windows, contexts and files ----------

  class FileDescriptor {
    const fd: nat
    var windows: Window?
    /** The windows of the file, newest first. */
    ghost var list: seq<Window>

    constructor (fd: nat)
      ensures this.fd == fd && list == [] && ListOk()
    {
      this.fd, windows, list := fd, null, [];
    }

    ghost predicate ListOk()
      reads this`windows, this`list, list`byFdNext, list`byFdPrev
    {
      && Distinct(list) && windows == At(list, 0)
      && forall i :: 0 <= i < |list| ==> FdLinkAt(list, i)
    }

    method PushWindow(w: Window)
      requires ListOk() && w !in list
      modifies this`windows, this`list, w`byFdNext, w`byFdPrev, list`byFdPrev
      ensures ListOk() && list == [w] + old(list)
    {
      w.byFdNext := windows;
      if w.byFdNext != null {
        w.byFdNext.byFdPrev := w;
      }
      w.byFdPrev := null;
      windows := w;
      list := [w] + list;
      forall i | 0 <= i < |list| ensures FdLinkAt(list, i) {
        assert i > 0 ==> old(FdLinkAt(list, i - 1));
      }
    }

    method DropWindow(w: Window, ghost k: nat)
      requires ListOk() && k < |list| && list[k] == w
      modifies this`windows, this`list, list`byFdNext, list`byFdPrev
      ensures ListOk() && list == Without(old(list), k)
    {
      assert FdLinkAt(list, k);
      assert k + 1 < |list| ==> FdLinkAt(list, k + 1);
      assert k > 0 ==> FdLinkAt(list, k - 1);
      ghost var s := list;
      if w.byFdNext != null {
        w.byFdNext.byFdPrev := w.byFdPrev;
      }
      if w.byFdPrev != null {
        w.byFdPrev.byFdNext := w.byFdNext;
      } else {
        windows := w.byFdNext;
      }
      w.byFdNext, w.byFdPrev := null, null;
      list := Without(s, k);
      forall i | 0 <= i < |list| ensures FdLinkAt(list, i) {
        assert list[i] == s[if i < k then i else i + 1];
        assert old(FdLinkAt(list, if i < k then i else i + 1));
      }
    }
  }

  class Context {
    const id: nat
    var window: Window?
    var byWindowNext: Context?
    var byWindowPrev: Context?

    constructor (id: nat)
      ensures this.id == id && window == null
    {
      this.id, window, byWindowNext, byWindowPrev := id, null, null, null;
    }
  }

  class Window {
    var keepAlways: bool
    var inUnused: bool
    var prot: nat
    var ptr: nat
    var offset: nat
    var size: nat
    var fd: FileDescriptor?
    var byFdNext: Window?
    var byFdPrev: Window?
    var unusedNext: Window?
    var unusedPrev: Window?
    var contexts: Context?
    /** The contexts that use the window, newest first. */
    ghost var users: seq<Context>

    constructor ()
      ensures Zeroed()
    {
      keepAlways, inUnused, prot, ptr, offset, size := false, false, 0, 0, 0, 0;
      fd, byFdNext, byFdPrev, unusedNext, unusedPrev, contexts, users := null, null, null, null, null, null, [];
    }

    predicate Matches(n: nat, prot: nat, offset: nat, size: nat)
      reads this`fd, this`prot, this`offset, this`size
    {
      fd != null && n == fd.fd && prot == this.prot && offset >= this.offset && offset + size <= this.offset + this.size
    }

    /** What the window shows. */
    ghost function Range(): (FileDescriptor?, nat, nat, nat)
      reads this`fd, this`prot, this`offset, this`size
    {
      (fd, prot, offset, size)
    }

    method Fill(keepAlways: bool, ptr: nat, offset: nat, prot: nat, size: nat, fd: FileDescriptor)
      requires Zeroed()
      modifies this`keepAlways, this`ptr, this`offset, this`prot, this`size, this`fd
      ensures this.keepAlways == keepAlways && this.ptr == ptr && this.offset == offset && this.prot == prot && this.size == size && this.fd == fd
    {
      this.keepAlways, this.ptr, this.offset, this.prot, this.size, this.fd := keepAlways, ptr, offset, prot, size, fd;
    }

    method Clear()
      modifies this
      ensures Zeroed()
    {
      keepAlways, inUnused, prot, ptr, offset, size := false, false, 0, 0, 0, 0;
      fd, byFdNext, byFdPrev, unusedNext, unusedPrev, contexts, users := null, null, null, null, null, null, [];
    }

    ghost predicate Zeroed()
      reads this
    {
      !keepAlways && !inUnused && fd == null && contexts == null && users == [] && UsersOk()
    }

    ghost predicate UsersOk()
      reads this`contexts, this`users, users`byWindowNext, users`byWindowPrev
    {
      && Distinct(users) && contexts == ContextAt(users, 0)
      && forall i :: 0 <= i < |users| ==> UserLinkAt(users, i)
    }

    method PushUser(c: Context)
      requires UsersOk() && c !in users
      modifies this`contexts, this`users, c`byWindowNext, c`byWindowPrev, users`byWindowPrev
      ensures UsersOk() && users == [c] + old(users)
    {
      c.byWindowNext := contexts;
      if c.byWindowNext != null {
        c.byWindowNext.byWindowPrev := c;
      }
      c.byWindowPrev := null;
      contexts := c;
      users := [c] + users;
      forall i | 0 <= i < |users| ensures UserLinkAt(users, i) {
        assert i > 0 ==> old(UserLinkAt(users, i - 1));
      }
    }

    method DropUser(c: Context, ghost k: nat)
      requires UsersOk() && k < |users| && users[k] == c
      modifies this`contexts, this`users, users`byWindowNext, users`byWindowPrev
      ensures UsersOk() && users == Without(old(users), k)
    {
      assert UserLinkAt(users, k);
      assert k + 1 < |users| ==> UserLinkAt(users, k + 1);
      assert k > 0 ==> UserLinkAt(users, k - 1);
      ghost var s := users;
      if c.byWindowNext != null {
        c.byWindowNext.byWindowPrev := c.byWindowPrev;
      }
      if c.byWindowPrev != null {
        c.byWindowPrev.byWindowNext := c.byWindowNext;
      } else {
        contexts := c.byWindowNext;
      }
      c.byWindowNext, c.byWindowPrev := null, null;
      users := Without(s, k);
      forall i | 0 <= i < |users| ensures UserLinkAt(users, i) {
        assert users[i] == s[if i < k then i else i + 1];
        assert old(UserLinkAt(users, if i < k then i else i + 1));
      }
    }
  }

  ghost predicate FdLinkAt(s: seq<Window>, i: nat)
    requires i < |s|
    reads {s[i]}`byFdNext, {s[i]}`byFdPrev
  {
    s[i].byFdNext == At(s, i + 1) && s[i].byFdPrev == At(s, i - 1)
  }

  ghost predicate UnusedLinkAt(s: seq<Window>, i: nat)
    requires i < |s|
    reads {s[i]}`unusedNext, {s[i]}`unusedPrev
  {
    s[i].unusedNext == At(s, i + 1) && s[i].unusedPrev == At(s, i - 1)
  }

  ghost predicate UserLinkAt(s: seq<Context>, i: nat)
    requires i < |s|
    reads {s[i]}`byWindowNext, {s[i]}`byWindowPrev
  {
    s[i].byWindowNext == ContextAt(s, i + 1) && s[i].byWindowPrev == ContextAt(s, i - 1)
  }

  function At(s: seq<Window>, i: int): Window? {
    if 0 <= i < |s| then s[i] else null
  }

  function ContextAt(s: seq<Context>, i: int): Context? {
    if 0 <= i < |s| then s[i] else null
  }

  class MMapCache {
    var nWindows: nat
    var nHit: nat
    var nMissed: nat
    var fds: map<nat, FileDescriptor>
    var contexts: map<nat, Context>
    var unused: Window?
    var lastUnused: Window?
    ghost var unusedList: seq<Window>
    /** All windows. */
    ghost var windows: set<Window>

    ghost predicate UnusedOk()
      reads this`unused, this`unusedList, unusedList`unusedNext, unusedList`unusedPrev
    {
      && Distinct(unusedList) && unused == At(unusedList, 0)
      && forall i :: 0 <= i < |unusedList| ==> UnusedLinkAt(unusedList, i)
    }

    method PushUnused(w: Window)
      requires UnusedOk() && w !in unusedList
      modifies this`unused, this`lastUnused, this`unusedList, w`unusedNext, w`unusedPrev, w`inUnused, unusedList`unusedPrev
      ensures UnusedOk() && unusedList == [w] + old(unusedList) && w.inUnused
      ensures lastUnused == if old(lastUnused) == null then w else old(lastUnused)
    {
      w.unusedNext := unused;
      if w.unusedNext != null {
        w.unusedNext.unusedPrev := w;
      }
      w.unusedPrev := null;
      unused := w;
      if lastUnused == null {
        lastUnused := w;
      }
      w.inUnused := true;
      unusedList := [w] + unusedList;
      forall i | 0 <= i < |unusedList| ensures UnusedLinkAt(unusedList, i) {
        assert i > 0 ==> old(UnusedLinkAt(unusedList, i - 1));
      }
    }

    /** Takes w off the unused list because it is used again. The link back is cleared before it is
        read, so a last window leaves no last window at all. */
    method ReuseUnused(w: Window, ghost k: nat)
      requires UnusedOk() && k < |unusedList| && unusedList[k] == w
      modifies this`unused, this`lastUnused, this`unusedList, w`inUnused, unusedList`unusedNext, unusedList`unusedPrev
      ensures UnusedOk() && unusedList == Without(old(unusedList), k) && !w.inUnused
      ensures lastUnused == if old(lastUnused) == w then null else old(lastUnused)
    {
      assert UnusedLinkAt(unusedList, k);
      assert k + 1 < |unusedList| ==> UnusedLinkAt(unusedList, k + 1);
      assert k > 0 ==> UnusedLinkAt(unusedList, k - 1);
      ghost var s := unusedList;
      if w.unusedNext != null {
        w.unusedNext.unusedPrev := w.unusedPrev;
      }
      if w.unusedPrev != null {
        w.unusedPrev.unusedNext := w.unusedNext;
      } else {
        unused := w.unusedNext;
      }
      w.unusedNext, w.unusedPrev := null, null;
      if lastUnused == w {
        lastUnused := w.unusedPrev;
      }
      w.inUnused := false;
      unusedList := Without(s, k);
      forall i | 0 <= i < |unusedList| ensures UnusedLinkAt(unusedList, i) {
        assert unusedList[i] == s[if i < k then i else i + 1];
        assert old(UnusedLinkAt(unusedList, if i < k then i else i + 1));
      }
    }

    /** Takes w off the unused list for good. */
    method DropUnused(w: Window, ghost k: nat)
      requires UnusedOk() && k < |unusedList| && unusedList[k] == w
      modifies this`unused, this`lastUnused, this`unusedList, unusedList`unusedNext, unusedList`unusedPrev
      ensures UnusedOk() && unusedList == Without(old(unusedList), k)
      ensures lastUnused == if old(lastUnused) == w then At(old(unusedList), k - 1) else old(lastUnused)
    {
      assert UnusedLinkAt(unusedList, k);
      assert k + 1 < |unusedList| ==> UnusedLinkAt(unusedList, k + 1);
      assert k > 0 ==> UnusedLinkAt(unusedList, k - 1);
      ghost var s := unusedList;
      if lastUnused == w {
        lastUnused := w.unusedPrev;
      }
      if w.unusedNext != null {
        w.unusedNext.unusedPrev := w.unusedPrev;
      }
      if w.unusedPrev != null {
        w.unusedPrev.unusedNext := w.unusedNext;
      } else {
        unused := w.unusedNext;
      }
      w.unusedNext, w.unusedPrev := null, null;
      unusedList := Without(s, k);
      forall i | 0 <= i < |unusedList| ensures UnusedLinkAt(unusedList, i) {
        assert unusedList[i] == s[if i < k then i else i + 1];
        assert old(UnusedLinkAt(unusedList, if i < k then i else i + 1));
      }
    }

    // ---------- what holds between calls ----------

    /** Every window is on the list of its file, and every file on record has only its own windows. */
    ghost predicate FdPart(ws: set<Window>)
      reads this`fds, fds.Values, ws`fd, ws`byFdNext, ws`byFdPrev
    {
      && (forall n :: n in fds ==> fds[n].fd == n && (forall w :: w in fds[n].list ==> w in ws && w.fd == fds[n]) && fds[n].ListOk())
      && (forall w :: w in ws ==> w.fd != null && w.fd.fd in fds && fds[w.fd.fd] == w.fd && w in w.fd.list)
    }

    /** Contexts and windows agree on who uses what. */
    ghost predicate UsePart(ws: set<Window>)
      reads this`contexts, contexts.Values, ws`contexts, ws`users
    {
      && (forall n :: n in contexts ==> contexts[n].id == n)
      && (forall n :: n in contexts && contexts[n].window != null ==> contexts[n].window in ws && contexts[n] in contexts[n].window.users)
      && (forall w :: w in ws ==> (forall c :: c in w.users ==> c in contexts.Values && Known(c) && c.window == w) && w.UsersOk())
    }

    /** A window is unused exactly if no context uses it and it is not to be kept; the last unused
        window, if there is one on record, is unused. */
    ghost predicate UnusedPart(ws: set<Window>)
      reads this`unused, this`lastUnused, this`unusedList, ws`inUnused, ws`keepAlways, ws`users, ws`unusedNext, ws`unusedPrev
    {
      && (forall w :: w in unusedList ==> w in ws) && UnusedOk()
      && (forall w :: w in ws ==> (w in unusedList <==> w.inUnused) && (w.inUnused <==> w.users == [] && !w.keepAlways))
      && (lastUnused != null ==> lastUnused in unusedList)
    }

    ghost predicate Valid()
      reads this, fds.Values, contexts.Values, windows
    {
      FdPart(windows) && UsePart(windows) && UnusedPart(windows) && nWindows == |windows|
    }

    constructor ()
      ensures Valid() && windows == {} && fds == map[] && contexts == map[] && unusedList == [] && lastUnused == null
    {
      nWindows, nHit, nMissed, fds, contexts, unused, lastUnused, unusedList, windows := 0, 0, 0, map[], map[], null, null, [], {};
    }

    // ---------- contexts come and go ----------

    ghost predicate Known(c: Context)
      reads this`contexts
    {
      c.id in contexts && contexts[c.id] == c
    }

    /** Takes c off the list of the window it uses. */
    method LeaveWindow(c: Context, ghost ws: set<Window>) returns (w: Window)
      requires UsePart(ws) && Known(c) && c.window != null
      modifies c`window, contexts.Values`byWindowNext, contexts.Values`byWindowPrev, c.window`contexts, c.window`users
      ensures UsePart(ws) && c.window == null && w == old(c.window) && w in ws
      ensures c in old(w.users) && c !in w.users && (w.contexts == null <==> w.users == [])
    {
      w := c.window;
      c.window := null;
      ghost var k: nat :| k < |w.users| && w.users[k] == c;
      assert forall x :: x in w.users ==> x in contexts.Values;
      w.DropUser(c, k);
      WithoutItem(old(w.users), k);
      forall x | x in ws ensures (forall y :: y in x.users ==> y in contexts.Values && Known(y) && y.window == x) && x.UsersOk() {
        if x != w {
          assert old(x.UsersOk());
          forall i | 0 <= i < |x.users| ensures UserLinkAt(x.users, i) {
            assert x.users[i] in x.users && x.users[i] !in old(w.users);
            assert old(UserLinkAt(x.users, i));
          }
        }
      }
    }

    /** The window that c is the only one to use, and that is not to be kept. */
    ghost function Deserted(c: Context): Window?
      reads this`contexts, contexts.Values`window, c`window, {c.window}`keepAlways
    {
      if c.window != null && !c.window.keepAlways && forall x :: x in contexts.Values && x.window == c.window ==> x == c then c.window else null
    }

    /** What is unused once c has left its window. */
    ghost function UnusedAfter(c: Context): seq<Window>
      reads this`contexts, this`unusedList, contexts.Values`window, c`window, {c.window}`keepAlways
    {
      if Deserted(c) != null then [Deserted(c)] + unusedList else unusedList
    }

    /** The last unused window on record once c has left its window. */
    ghost function LastAfter(c: Context): Window?
      reads this`contexts, this`lastUnused, contexts.Values`window, c`window, {c.window}`keepAlways
    {
      if lastUnused == null then Deserted(c) else lastUnused
    }

    method DetachWindow(c: Context, ghost ws: set<Window>)
      requires UsePart(ws) && UnusedPart(ws) && Known(c)
      modifies this`unused, this`lastUnused, this`unusedList, c`window, contexts.Values`byWindowNext, contexts.Values`byWindowPrev
      modifies ws`contexts, ws`users, ws`inUnused, ws`unusedNext, ws`unusedPrev
      ensures UsePart(ws) && UnusedPart(ws) && c.window == null
      ensures unusedList == old(UnusedAfter(c)) && lastUnused == old(LastAfter(c))
    {
      hide Window.UsersOk;
      if c.window == null {
        return;
      }
      var w := LeaveWindow(c, ws);
      OnlyUser(w, c, ws);
      if w.contexts == null && !w.keepAlways {
        PushUnused(w);
      }
    }

    lemma {:induction false} OnlyUser(w: Window, c: Context, ws: set<Window>)
      requires UsePart(ws) && w in ws && c.window != w
      ensures w.users == [] <==> forall x :: x in contexts.Values && x.window == w ==> x == c
    {
      if w.users != [] {
        assert w.users[0] in contexts.Values && w.users[0].window == w;
      }
    }

    /** c starts using window w, which is not on the unused list. */
    method JoinWindow(c: Context, w: Window, ghost ws: set<Window>)
      requires UsePart(ws) && UnusedPart(ws - {w}) && w in ws && !w.inUnused && Known(c) && c.window == null
      modifies c`window, contexts.Values`byWindowNext, contexts.Values`byWindowPrev, w`contexts, w`users
      ensures UsePart(ws) && UnusedPart(ws) && c.window == w
    {
      assert forall x :: x in w.users ==> x in contexts.Values;
      c.window := w;
      w.PushUser(c);
      assert w.users[0] == c;
      forall x | x in ws ensures (forall y :: y in x.users ==> y in contexts.Values && Known(y) && y.window == x) && x.UsersOk() {
        if x != w {
          forall i | 0 <= i < |x.users| ensures UserLinkAt(x.users, i) {
            assert x.users[i] in x.users && x.users[i] !in old(w.users) + [c];
            assert old(UserLinkAt(x.users, i));
          }
        }
      }
    }

    method AttachWindow(c: Context, w: Window, ghost ws: set<Window>)
      requires UsePart(ws) && UnusedPart(ws) && Known(c) && w in ws
      modifies this`unused, this`lastUnused, this`unusedList, c`window, contexts.Values`byWindowNext, contexts.Values`byWindowPrev
      modifies ws`contexts, ws`users, ws`inUnused, ws`unusedNext, ws`unusedPrev
      ensures UsePart(ws) && UnusedPart(ws) && c.window == w
      ensures old(c.window) == null ==> (lastUnused == if old(lastUnused) == w then null else old(lastUnused))
      ensures old(c.window) == null ==> forall x :: x in old(unusedList) && x != w ==> x in unusedList
    {
      hide UsePart;
      if c.window == w {
        return;
      }
      DetachWindow(c, ws);
      if w.inUnused {
        TakeUnused(w, ws);
      } else {
        UnusedWithout(w, ws);
      }
      JoinWindow(c, w, ws);
    }

    method TakeUnused(w: Window, ghost ws: set<Window>)
      requires UnusedPart(ws) && w in ws && w.inUnused
      modifies this`unused, this`lastUnused, this`unusedList, ws`inUnused, ws`unusedNext, ws`unusedPrev
      ensures UnusedPart(ws - {w}) && !w.inUnused
      ensures lastUnused == if old(lastUnused) == w then null else old(lastUnused)
      ensures forall x :: x in old(unusedList) && x != w ==> x in unusedList
    {
      ghost var k: nat :| k < |unusedList| && unusedList[k] == w;
      WithoutItem(unusedList, k);
      ReuseUnused(w, k);
    }

    lemma {:induction false} UnusedWithout(w: Window, ws: set<Window>)
      requires UnusedPart(ws) && w in ws && !w.inUnused
      ensures UnusedPart(ws - {w})
    {
    }

    // ---------- windows come and go ----------

    method UnlinkFd(w: Window, ghost ws: set<Window>)
      requires FdPart(ws) && w in ws
      modifies fds.Values`windows, fds.Values`list, ws`byFdNext, ws`byFdPrev
      ensures FdPart(ws - {w})
    {
      ghost var f := w.fd;
      ghost var k: nat :| k < |f.list| && f.list[k] == w;
      assert fds[f.fd] == f && f in fds.Values;
      WithoutItem(f.list, k);
      w.fd.DropWindow(w, k);
      forall n | n in fds ensures fds[n].fd == n && (forall x :: x in fds[n].list ==> x in ws - {w} && x.fd == fds[n]) && fds[n].ListOk() {
        if fds[n] != f {
          assert old(fds[n].ListOk());
          forall i | 0 <= i < |fds[n].list| ensures FdLinkAt(fds[n].list, i) {
            assert fds[n].list[i] in fds[n].list && fds[n].list[i] !in old(f.list);
            assert old(FdLinkAt(fds[n].list, i));
          }
        }
      }
    }

    method UnlinkUnused(w: Window, ghost ws: set<Window>)
      requires UnusedPart(ws) && w in ws
      modifies this`unused, this`lastUnused, this`unusedList, ws`unusedNext, ws`unusedPrev
      ensures UnusedPart(ws - {w})
    {
      if w.inUnused {
        ghost var k: nat :| k < |unusedList| && unusedList[k] == w;
        WithoutItem(unusedList, k);
        assert k > 0 ==> Without(unusedList, k)[k - 1] == unusedList[k - 1];
        DropUnused(w, k);
      }
    }

    /** Tells every context that uses w that its window is gone. */
    method ReleaseUsers(w: Window, ghost ws: set<Window>)
      requires UsePart(ws) && w in ws
      modifies contexts.Values`window
      ensures UsePart(ws - {w})
      ensures forall c :: c in old(contexts).Values ==> c.window == if old(c.window) == w then null else old(c.window)
    {
      var c := w.contexts;
      ghost var i := 0;
      ghost var users := w.users;
      assert w.UsersOk();
      while c != null
        invariant 0 <= i <= |users| && c == ContextAt(users, i)
        invariant forall x :: x in contexts.Values ==> x.window == if x in users[..i] then null else old(x.window)
        decreases |users| - i
      {
        assert UserLinkAt(users, i) && users[i] in users && c == users[i] && c in contexts.Values;
        c.window := null;
        c := c.byWindowNext;
        i := i + 1;
      }
      assert users[..i] == users;
      forall x | x in contexts.Values ensures x.window == if old(x.window) == w then null else old(x.window) {
      }
      forall x | x in ws - {w} ensures (forall y :: y in x.users ==> y in contexts.Values && Known(y) && y.window == x) && x.UsersOk() {
        assert old(x.UsersOk());
      }
    }

    method UnlinkWindow(w: Window, ghost ws: set<Window>)
      requires FdPart(ws) && UsePart(ws) && UnusedPart(ws) && w in ws
      modifies this`unused, this`lastUnused, this`unusedList, fds.Values`windows, fds.Values`list, contexts.Values`window
      modifies ws`byFdNext, ws`byFdPrev, ws`unusedNext, ws`unusedPrev
      ensures FdPart(ws - {w}) && UsePart(ws - {w}) && UnusedPart(ws - {w})
      ensures forall c :: c in old(contexts).Values ==> c.window == if old(c.window) == w then null else old(c.window)
    {
      hide FdPart, UsePart, UnusedPart;
      UnlinkLists(w, ws);
      ReleaseUsers(w, ws);
    }

    method UnlinkLists(w: Window, ghost ws: set<Window>)
      requires FdPart(ws) && UsePart(ws) && UnusedPart(ws) && w in ws
      modifies this`unused, this`lastUnused, this`unusedList, fds.Values`windows, fds.Values`list
      modifies ws`byFdNext, ws`byFdPrev, ws`unusedNext, ws`unusedPrev
      ensures FdPart(ws - {w}) && UsePart(ws) && UnusedPart(ws - {w})
    {
      hide FdPart, UsePart, UnusedPart;
      OwnFd(w, ws);
      UnlinkFd(w, ws);
      UnlinkUnused(w, ws);
    }

    lemma {:induction false} OwnFd(w: Window, ws: set<Window>)
      requires FdPart(ws) && w in ws
      ensures w.fd != null && w.fd in fds.Values && fds[w.fd.fd] == w.fd
    {
    }

    method FreeWindow(w: Window)
      requires Valid() && w in windows
      modifies this`nWindows, this`unused, this`lastUnused, this`unusedList, this`windows, fds.Values`windows, fds.Values`list, contexts.Values`window
      modifies windows`byFdNext, windows`byFdPrev, windows`unusedNext, windows`unusedPrev
      ensures Valid() && windows == old(windows) - {w} && w.fd == old(w.fd)
      ensures forall c :: c in old(contexts).Values ==> c.window == if old(c.window) == w then null else old(c.window)
    {
      hide FdPart, UsePart, UnusedPart;
      UnlinkWindow(w, windows);
      windows := windows - {w};
      nWindows := nWindows - 1;
    }

    /** Gives up the last unused window, if one is on record. */
    method MakeRoom() returns (r: bool)
      requires Valid()
      modifies this`nWindows, this`unused, this`lastUnused, this`unusedList, this`windows, fds.Values`windows, fds.Values`list, contexts.Values`window
      modifies windows`byFdNext, windows`byFdPrev, windows`unusedNext, windows`unusedPrev
      ensures Valid() && (r <==> old(lastUnused) != null) && (!r ==> lastUnused == null)
      ensures windows == (if r then old(windows) - {old(lastUnused)} else old(windows)) && (!r ==> unusedList == old(unusedList) && nWindows == old(nWindows))
      ensures r ==> |windows| < old(|windows|)
      ensures forall c :: c in old(contexts).Values ==> c.window == old(c.window)
    {
      hide FdPart, UsePart;
      if lastUnused == null {
        return false;
      }
      UnusedHasNoUsers(lastUnused);
      FreeWindow(lastUnused);
      r := true;
    }

    lemma {:induction false} UnusedHasNoUsers(w: Window)
      requires UsePart(windows) && UnusedPart(windows) && w in unusedList
      ensures w in windows && forall c :: c in contexts.Values ==> c.window != w
    {
    }

    /** Three parts of the invariant, and one window counted that is not among the windows. */
    ghost predicate Awaits(w: Window)
      reads this, fds.Values, contexts.Values, windows, w
    {
      && FdPart(windows) && UsePart(windows) && UnusedPart(windows)
      && w !in windows && w.Zeroed() && nWindows == |windows| + 1
    }

    method NewWindow() returns (w: Window)
      requires Valid()
      modifies this`nWindows
      ensures Awaits(w) && fresh(w)
      ensures forall x :: x in old(windows) && x in windows ==> x.Range() == old(x.Range())
    {
      hide FdPart, UsePart, UnusedPart, Window.Zeroed;
      w := new Window();
      nWindows := nWindows + 1;
    }

    /** Takes the last unused window for a new purpose. */
    method ReuseWindow() returns (w: Window)
      requires Valid() && lastUnused != null
      modifies this`unused, this`lastUnused, this`unusedList, this`windows, fds.Values`windows, fds.Values`list, contexts.Values`window
      modifies windows
      ensures Awaits(w) && w in old(windows) && windows == old(windows) - {w}
      ensures forall x :: x in old(windows) && x in windows ==> x.Range() == old(x.Range())
      ensures forall c :: c in old(contexts).Values ==> c.window == old(c.window)
    {
      hide FdPart, UsePart, Window.Zeroed;
      w := lastUnused;
      UnusedHasNoUsers(w);
      UnlinkWindow(w, windows);
      windows := windows - {w};
      hide UnusedPart;
      w.Clear();
    }

    /** A window to fill in: the last unused one, if one is on record and there are many. */
    method AddWindow() returns (w: Window)
      requires Valid()
      modifies this`nWindows, this`unused, this`lastUnused, this`unusedList, this`windows, fds.Values`windows, fds.Values`list, contexts.Values`window
      modifies windows
      ensures Awaits(w) && windows == old(windows) - {w} && (fresh(w) || w in old(windows))
      ensures fresh(w) <==> old(lastUnused) == null || old(nWindows) <= WINDOWS_MIN
      ensures fresh(w) ==> unusedList == old(unusedList) && lastUnused == old(lastUnused)
      ensures forall x :: x in old(windows) && x in windows ==> x.Range() == old(x.Range())
      ensures forall c :: c in old(contexts).Values ==> c.window == old(c.window)
    {
      hide Valid, Awaits, Window.Range;
      if lastUnused == null || nWindows <= WINDOWS_MIN {
        w := NewWindow();
        assert windows == windows - {w};
      } else {
        w := ReuseWindow();
      }
    }

    method AddContext(id: nat) returns (c: Context)
      requires Valid()
      modifies this`contexts
      ensures Valid() && Known(c) && c.id == id && (if id in old(contexts) then contexts == old(contexts) else fresh(c))
      ensures forall n :: n in old(contexts) ==> n in contexts && contexts[n] == old(contexts)[n]
      ensures contexts.Values == old(contexts).Values + {c} && (fresh(c) || c in old(contexts).Values)
      ensures contexts.Keys == old(contexts).Keys + {id} && c.window == old(OwnWindow(id))
    {
      hide FdPart, UnusedPart, Window.UsersOk;
      if id in contexts {
        c := contexts[id];
        assert c in contexts.Values;
        return;
      }
      c := new Context(id);
      contexts := contexts[id := c];
      ContextAdded(old(contexts), c);
    }

    lemma {:induction false} ContextAdded(before: map<nat, Context>, c: Context)
      requires c.id !in before && contexts == before[c.id := c]
      ensures contexts.Values == before.Values + {c}
    {
      assert forall n :: n in before ==> contexts[n] == before[n];
      assert contexts[c.id] == c;
    }

    method AddFd(n: nat) returns (f: FileDescriptor)
      requires Valid()
      modifies this`fds
      ensures Valid() && n in fds && fds[n] == f && (if n in old(fds) then fds == old(fds) else fresh(f))
      ensures fds.Values == old(fds).Values + {f} && (fresh(f) || f in old(fds).Values) && f.fd == n
    {
      hide UsePart, UnusedPart;
      if n in fds {
        f := fds[n];
        assert f in fds.Values;
        return;
      }
      f := new FileDescriptor(n);
      fds := fds[n := f];
      assert forall w :: w in windows ==> w.fd != f;
      FdAdded(old(fds), f);
    }

    lemma {:induction false} FdAdded(before: map<nat, FileDescriptor>, f: FileDescriptor)
      requires f.fd !in before && fds == before[f.fd := f]
      ensures fds.Values == before.Values + {f}
    {
      assert forall n :: n in before ==> fds[n] == before[n];
      assert fds[f.fd] == f;
    }

    /** The context uses a window that covers the request, and ptr is where the request is in it. */
    ghost predicate Served(n: nat, prot: nat, context: nat, keepAlways: bool, offset: nat, size: nat, ptr: nat)
      reads this`contexts, contexts.Values`window, this`windows, windows
    {
      && context in contexts && contexts[context].window != null && contexts[context].window in windows
      && (var w := contexts[context].window;
          && w.Matches(n, prot, offset, size) && (keepAlways ==> w.keepAlways) && ptr == w.ptr + (offset - w.offset))
    }

    /** A window that is in use may be marked to be kept. */
    method Keep(w: Window, keepAlways: bool)
      requires Valid() && w in windows && w.users != []
      modifies w`keepAlways
      ensures Valid() && w.keepAlways == (old(w.keepAlways) || keepAlways)
    {
      hide FdPart, UsePart;
      w.keepAlways := w.keepAlways || keepAlways;
    }

    lemma {:induction false} UsedNotUnused(w: Window)
      requires UnusedPart(windows) && w in windows && w.users != []
      ensures w !in unusedList
    {
    }

    lemma {:induction false} UsedWindow(c: Context)
      requires UsePart(windows) && Known(c) && c.window != null
      ensures c.window in windows && c.window.users != []
    {
    }

    /** The window the context uses covers the request. */
    ghost predicate OwnMatch(n: nat, prot: nat, context: nat, offset: nat, size: nat)
      reads this`contexts, contexts.Values`window, if context in contexts then {contexts[context].window} else {}
    {
      context in contexts && contexts[context].window != null && contexts[context].window.Matches(n, prot, offset, size)
    }

    ghost function UnusedFor(context: nat): seq<Window>
      reads this`contexts, this`unusedList, contexts.Values`window, if context in contexts then {contexts[context].window} else {}
    {
      if context in contexts then UnusedAfter(contexts[context]) else unusedList
    }

    ghost function LastFor(context: nat): Window?
      reads this`contexts, this`lastUnused, contexts.Values`window, if context in contexts then {contexts[context].window} else {}
    {
      if context in contexts then LastAfter(contexts[context]) else lastUnused
    }

    /** Serves the request from the window the context uses already; a window that does not match is dropped. */
    method TryContext(n: nat, prot: nat, context: nat, keepAlways: bool, offset: nat, size: nat) returns (r: Option<nat>)
      requires Valid()
      modifies this`unused, this`lastUnused, this`unusedList, contexts.Values, windows
      ensures Valid() && (r.Some? ==> Served(n, prot, context, keepAlways, offset, size, r.value))
      ensures r.Some? <==> old(OwnMatch(n, prot, context, offset, size))
      ensures unusedList == (if r.Some? then old(unusedList) else old(UnusedFor(context)))
      ensures lastUnused == (if r.Some? then old(lastUnused) else old(LastFor(context)))
      ensures r.None? && context in contexts ==> contexts[context].window == null
      ensures forall c :: c in old(contexts).Values && c.id != context ==> c.window == old(c.window)
      ensures forall w :: w in windows ==> w.Range() == old(w.Range())
    {
      hide FdPart, UsePart, UnusedPart;
      if context !in contexts {
        return None;
      }
      var c := contexts[context];
      KnownContext(context);
      if c.window == null {
        return None;
      }
      UsedWindow(c);
      if !c.window.Matches(n, prot, offset, size) {
        DetachWindow(c, windows);
        return None;
      }
      Keep(c.window, keepAlways);
      r := Some(c.window.ptr + (offset - c.window.offset));
    }

    lemma {:induction false} KnownContext(n: nat)
      requires UsePart(windows) && n in contexts
      ensures Known(contexts[n]) && contexts[n].id == n && contexts[n] in contexts.Values
    {
    }

    ghost function OwnWindow(context: nat): Window?
      reads this`contexts, contexts.Values`window
    {
      if context in contexts then contexts[context].window else null
    }

    /** If w was unused it is not any more; if it was the last one, there is no last one on record. */
    ghost predicate TakenFrom(list: seq<Window>, last: Window?, w: Window?)
      reads this`unusedList, this`lastUnused
    {
      && lastUnused == (if last == w then null else last)
      && w !in unusedList && forall x :: x in list && x != w ==> x in unusedList
    }

    /** Serves the request from any window of the file that matches. */
    method FindMmap(n: nat, prot: nat, context: nat, keepAlways: bool, offset: nat, size: nat) returns (r: Option<nat>)
      requires Valid()
      modifies this`contexts, this`unused, this`lastUnused, this`unusedList, contexts.Values, windows
      ensures Valid() && (r.Some? ==> Served(n, prot, context, keepAlways, offset, size, r.value))
      ensures r.None? ==> contexts == old(contexts) && forall w :: w in windows ==> !w.Matches(n, prot, offset, size)
      ensures r.None? ==> unusedList == old(unusedList) && lastUnused == old(lastUnused) && OwnWindow(context) == old(OwnWindow(context))
      ensures old(OwnWindow(context)) == null && r.Some? ==> TakenFrom(old(unusedList), old(lastUnused), OwnWindow(context))
      ensures contexts.Keys <= old(contexts).Keys + {context} && forall c :: c in contexts.Values ==> c in old(contexts).Values || fresh(c)
      ensures forall c :: c in old(contexts).Values && c.id != context ==> c.window == old(c.window)
      ensures forall w :: w in windows ==> w.Range() == old(w.Range())
    {
      hide UsePart, UnusedPart, Window.Matches;
      if n !in fds {
        NoWindows(n, prot, offset, size);
        return None;
      }
      var w := FindWindow(fds[n], n, prot, offset, size);
      if w == null {
        return None;
      }
      r := UseWindow(w, n, prot, context, keepAlways, offset, size);
    }

    lemma {:induction false} NoWindows(n: nat, prot: nat, offset: nat, size: nat)
      requires FdPart(windows) && n !in fds
      ensures forall w :: w in windows ==> !w.Matches(n, prot, offset, size)
    {
    }

    method FindWindow(f: FileDescriptor, n: nat, prot: nat, offset: nat, size: nat) returns (w: Window?)
      requires FdPart(windows) && n in fds && fds[n] == f
      ensures w != null ==> w in windows && w.Matches(n, prot, offset, size)
      ensures w == null ==> forall x :: x in windows ==> !x.Matches(n, prot, offset, size)
    {
      ghost var list := f.list;
      assert f.ListOk();
      ghost var i := 0;
      w := f.windows;
      while w != null
        invariant 0 <= i <= |list| && w == At(list, i)
        invariant forall k :: 0 <= k < i ==> !list[k].Matches(n, prot, offset, size)
        decreases |list| - i
      {
        assert FdLinkAt(list, i) && list[i] in list;
        if w.Matches(n, prot, offset, size) {
          return;
        }
        w := w.byFdNext;
        i := i + 1;
      }
      forall x | x in windows ensures !x.Matches(n, prot, offset, size) {
        assert x.fd == f ==> x in list;
      }
    }

    /** Makes the context use window w. */
    method AttachFor(w: Window, context: nat)
      requires Valid() && w in windows
      modifies this`contexts, this`unused, this`lastUnused, this`unusedList, contexts.Values
      modifies windows`contexts, windows`users, windows`inUnused, windows`unusedNext, windows`unusedPrev
      ensures Valid() && context in contexts && OwnWindow(context) == w && w.users != [] && w !in unusedList
      ensures old(OwnWindow(context)) == null ==> TakenFrom(old(unusedList), old(lastUnused), w)
      ensures contexts.Keys <= old(contexts).Keys + {context} && forall c :: c in contexts.Values ==> c in old(contexts).Values || fresh(c)
      ensures forall c :: c in old(contexts).Values && c.id != context ==> c.window == old(c.window)
    {
      hide FdPart, UsePart, UnusedPart;
      var c := AddContext(context);
      AttachWindow(c, w, windows);
      UsedWindow(c);
      UsedNotUnused(w);
    }

    /** Makes the context use a window that matches. */
    method UseWindow(w: Window, n: nat, prot: nat, context: nat, keepAlways: bool, offset: nat, size: nat) returns (r: Option<nat>)
      requires Valid() && w in windows && w.Matches(n, prot, offset, size)
      modifies this`contexts, this`unused, this`lastUnused, this`unusedList, contexts.Values, windows
      ensures Valid() && r.Some? && Served(n, prot, context, keepAlways, offset, size, r.value) && OwnWindow(context) == w
      ensures old(OwnWindow(context)) == null ==> TakenFrom(old(unusedList), old(lastUnused), w)
      ensures contexts.Keys <= old(contexts).Keys + {context} && forall c :: c in contexts.Values ==> c in old(contexts).Values || fresh(c)
      ensures forall c :: c in old(contexts).Values && c.id != context ==> c.window == old(c.window)
      ensures forall w :: w in windows ==> w.Range() == old(w.Range())
    {
      hide FdPart, UsePart, UnusedPart;
      AttachFor(w, context);
      Keep(w, keepAlways);
      r := Some(w.ptr + (offset - w.offset));
    }

    /** Puts a filled-in window on the list of its file. */
    method LinkFd(f: FileDescriptor, w: Window, ghost ws: set<Window>)
      requires FdPart(ws) && w !in ws && f in fds.Values && f.fd in fds && fds[f.fd] == f && w.fd == f
      modifies f`windows, f`list, w`byFdNext, w`byFdPrev, ws`byFdPrev
      ensures FdPart(ws + {w})
    {
      f.PushWindow(w);
      assert f.list[0] == w;
      forall n | n in fds
        ensures fds[n].fd == n && (forall x :: x in fds[n].list ==> x in ws + {w} && x.fd == fds[n]) && fds[n].ListOk()
      {
        if fds[n] != f {
          assert old(fds[n].ListOk());
          forall i | 0 <= i < |fds[n].list| ensures FdLinkAt(fds[n].list, i) {
            assert fds[n].list[i] in fds[n].list && fds[n].list[i] !in f.list;
            assert old(FdLinkAt(fds[n].list, i));
          }
        }
      }
    }

    method FillWindow(w: Window, f: FileDescriptor, keepAlways: bool, ptr: nat, woffset: nat, prot: nat, wsize: nat)
      requires FdPart(windows) && w !in windows && w.Zeroed()
      modifies w`keepAlways, w`ptr, w`offset, w`prot, w`size, w`fd
      ensures FdPart(windows)
      ensures w.fd == f && w.prot == prot && w.offset == woffset && w.size == wsize && w.ptr == ptr && w.keepAlways == keepAlways
    {
      hide FdPart, Window.Zeroed;
      w.Fill(keepAlways, ptr, woffset, prot, wsize, f);
    }

    method PlaceInFd(w: Window, f: FileDescriptor, keepAlways: bool, ptr: nat, woffset: nat, prot: nat, wsize: nat)
      requires FdPart(windows) && w !in windows && w.Zeroed() && f in fds.Values && f.fd in fds && fds[f.fd] == f
      modifies f`windows, f`list, windows`byFdPrev, w`keepAlways, w`ptr, w`offset, w`prot, w`size, w`fd, w`byFdNext, w`byFdPrev
      ensures FdPart(windows + {w})
      ensures w.fd == f && w.prot == prot && w.offset == woffset && w.size == wsize && w.ptr == ptr && w.keepAlways == keepAlways
    {
      hide FdPart, Window.Zeroed;
      FillWindow(w, f, keepAlways, ptr, woffset, prot, wsize);
      LinkFd(f, w, windows);
    }

    method LinkContext(w: Window, c: Context)
      requires UsePart(windows) && UnusedPart(windows) && w !in windows && w.users == [] && w.UsersOk() && !w.inUnused
      requires Known(c) && c in contexts.Values
      modifies this`unused, this`lastUnused, this`unusedList, c`window, contexts.Values`byWindowNext, contexts.Values`byWindowPrev
      modifies windows`contexts, windows`users, windows`inUnused, windows`unusedNext, windows`unusedPrev, w`contexts, w`users
      ensures UsePart(windows + {w}) && UnusedPart(windows + {w}) && c.window == w
      ensures old(c.window) == null ==> unusedList == old(unusedList) && lastUnused == old(lastUnused)
    {
      hide UsePart, UnusedPart, Window.UsersOk;
      DetachWindow(c, windows);
      WindowJoins(w, windows);
      JoinWindow(c, w, windows + {w});
    }

    method JoinNew(w: Window, c: Context)
      requires FdPart(windows + {w}) && nWindows == |windows| + 1
      requires UsePart(windows) && UnusedPart(windows) && w !in windows && w.users == [] && w.UsersOk() && !w.inUnused
      requires Known(c) && c in contexts.Values
      modifies this`windows, this`unused, this`lastUnused, this`unusedList, c`window, contexts.Values`byWindowNext, contexts.Values`byWindowPrev
      modifies windows`contexts, windows`users, windows`inUnused, windows`unusedNext, windows`unusedPrev, w`contexts, w`users
      ensures Valid() && c.window == w && windows == old(windows) + {w}
      ensures old(c.window) == null ==> unusedList == old(unusedList) && lastUnused == old(lastUnused)
    {
      hide FdPart, UsePart, UnusedPart, Window.UsersOk;
      LinkContext(w, c);
      windows := windows + {w};
    }

    /** Links a new window to its file and to the context that asked for it. */
    method InstallWindow(w: Window, c: Context, f: FileDescriptor, keepAlways: bool, ptr: nat, woffset: nat, prot: nat, wsize: nat)
      requires Awaits(w) && Known(c) && c in contexts.Values && f in fds.Values && f.fd in fds && fds[f.fd] == f
      modifies this`unused, this`lastUnused, this`unusedList, this`windows, f`windows, f`list, contexts.Values, windows, w
      ensures Valid() && windows == old(windows) + {w} && c.window == w
      ensures old(c.window) == null ==> unusedList == old(unusedList) && lastUnused == old(lastUnused)
      ensures forall x :: x in old(contexts).Values && x != c ==> x.window == old(x.window)
      ensures forall x :: x in old(windows) ==> x.Range() == old(x.Range())
      ensures w.fd == f && w.prot == prot && w.offset == woffset && w.size == wsize && w.ptr == ptr && w.keepAlways == keepAlways
    {
      hide FdPart, UsePart, UnusedPart, Window.UsersOk, Valid;
      PlaceInFd(w, f, keepAlways, ptr, woffset, prot, wsize);
      JoinNew(w, c);
    }

    lemma {:induction false} WindowJoins(w: Window, ws: set<Window>)
      requires UsePart(ws) && UnusedPart(ws) && w !in ws && w.users == [] && w.UsersOk()
      ensures UsePart(ws + {w}) && UnusedPart((ws + {w}) - {w})
    {
      assert (ws + {w}) - {w} == ws;
    }

    /** The context uses a window added to the ones before, placed around the request. */
    ghost predicate NewlyMapped(before: set<Window>, n: nat, prot: nat, context: nat, keepAlways: bool, offset: nat, size: nat)
      reads this`contexts, contexts.Values`window, this`windows, windows
    {
      var w := OwnWindow(context);
      && w != null && windows == before + {w} && w.fd != null && w.fd.fd == n && w.prot == prot && w.keepAlways == keepAlways
      && w.offset <= offset && offset + size <= w.offset + w.size && w.size <= WINDOW_SIZE + size
    }

    /** What the system gave for this result: the pages of the context's window, or nothing. */
    ghost function Room(r: GetResult, context: nat): GetResult
      reads this`contexts, contexts.Values`window, windows`ptr, this`windows
    {
      var w := OwnWindow(context);
      if r.Mapped? && w != null && w in windows then Mapped(w.ptr) else r
    }

    /** Maps a new window, giving up unused ones while there is no memory. */
    method AddMmap(n: nat, prot: nat, context: nat, keepAlways: bool, offset: nat, size: nat, fileSize: Option<nat>, system: System)
      returns (r: GetResult)
      requires Valid() && size > 0
      modifies this`nWindows, this`fds, this`contexts, this`unused, this`lastUnused, this`unusedList, this`windows
      modifies fds.Values, contexts.Values, windows
      ensures Valid()
      ensures (forall x :: x in fds.Values ==> x in old(fds).Values || fresh(x)) && forall x :: x in contexts.Values ==> x in old(contexts).Values || fresh(x)
      ensures forall x :: x in windows ==> x in old(windows) || fresh(x)
      ensures r.NotAvailable? <==> fileSize.Some? && WindowStart(offset, size) >= fileSize.value
      ensures r.NotAvailable? ==> !WithinFile(fileSize, offset, size)
      ensures !r.NotAvailable? ==> SystemSays(system, Room(r, context))
      ensures !r.NotAvailable? && system(0).Pages? ==> r.Mapped?
      ensures r.Mapped? && (fileSize.None? || offset + size <= PageAlign(fileSize.value)) ==>
                Served(n, prot, context, keepAlways, offset, size, r.ptr)
      ensures r.Mapped? && fileSize.Some? && offset + size > PageAlign(fileSize.value) ==>
                !Served(n, prot, context, keepAlways, offset, size, r.ptr)
      ensures WithinFile(fileSize, offset, size) && system(0).Pages? && old(nWindows) <= WINDOWS_MIN ==>
                NewlyMapped(old(windows), n, prot, context, keepAlways, offset, size) && fresh(OwnWindow(context))
      ensures WithinFile(fileSize, offset, size) && system(0).Pages? && old(nWindows) <= WINDOWS_MIN && old(OwnWindow(context)) == null ==>
                unusedList == old(unusedList) && lastUnused == old(lastUnused)
      ensures WithinFile(fileSize, offset, size) && system(0).OutOfMemory? && old(lastUnused) == null ==>
                r == NoMemory && windows == old(windows) && unusedList == old(unusedList) && lastUnused == old(lastUnused)
      ensures contexts.Keys <= old(contexts).Keys + {context}
      ensures forall c :: c in old(contexts).Values && c.id != context ==> c.window == old(c.window)
      ensures forall w :: w in old(windows) && w in windows && w != OwnWindow(context) ==> w.Range() == old(w.Range())
    {
      hide SystemSays, Valid, Awaits, FdPart, UsePart, UnusedPart, PageAlign, Window.Range;
      var woffset, wsize := PlaceWindow(offset, size);
      if fileSize.Some? {
        if woffset >= fileSize.value {
          return NotAvailable;
        }
        wsize := ClampWindow(woffset, wsize, fileSize.value);
      }
      var room := MapPages(system);
      if !room.Mapped? {
        return room;
      }
      InstallNew(n, prot, context, keepAlways, room.ptr, woffset, wsize);
      r := Mapped(room.ptr + (offset - woffset));
    }

    /** Asks the system for the pages, giving up unused windows while it has no memory; system(i) is its answer to try i. */
    method MapPages(system: System) returns (r: GetResult)
      requires Valid()
      modifies this`nWindows, this`unused, this`lastUnused, this`unusedList, this`windows, fds.Values`windows, fds.Values`list, contexts.Values`window
      modifies windows
      ensures Valid() && !r.NotAvailable? && windows <= old(windows)
      ensures r == NoMemory ==> lastUnused == null
      ensures SystemSays(system, r)
      ensures system(0).Pages? ==> r == Mapped(system(0).address)
      ensures system(0).OutOfMemory? && old(lastUnused) == null ==> r == NoMemory
      ensures system(0).Pages? || old(lastUnused) == null ==>
                nWindows == old(nWindows) && windows == old(windows) && unusedList == old(unusedList) && lastUnused == old(lastUnused)
      ensures forall c :: c in old(contexts).Values ==> c.window == old(c.window)
      ensures forall w :: w in old(windows) && w in windows ==> w.Range() == old(w.Range())
    {
      hide Valid;
      var i: nat := 0;
      while true
        invariant Valid() && windows <= old(windows)
        invariant forall j :: 0 <= j < i ==> system(j).OutOfMemory?
        invariant i > 0 ==> old(lastUnused) != null && system(0).OutOfMemory?
        invariant i == 0 ==> nWindows == old(nWindows) && windows == old(windows) && unusedList == old(unusedList) && lastUnused == old(lastUnused)
        invariant forall c :: c in old(contexts).Values ==> c.window == old(c.window)
        invariant forall w :: w in old(windows) && w in windows ==> w.Range() == old(w.Range())
        decreases |windows|
      {
        match system(i) {
          case Pages(d) =>
            SaysSo(system, i, Mapped(d));
            return Mapped(d);
          case Error =>
            SaysSo(system, i, Failed);
            return Failed;
          case OutOfMemory =>
            var made := MakeRoom();
            if !made {
              SaysSo(system, i, NoMemory);
              return NoMemory;
            }
        }
        i := i + 1;
      }
    }

    /** A context, a file and a window that is not linked to them yet. */
    method Prepare(n: nat, context: nat) returns (c: Context, f: FileDescriptor, w: Window)
      requires Valid()
      modifies this`nWindows, this`fds, this`contexts, this`unused, this`lastUnused, this`unusedList, this`windows
      modifies fds.Values`windows, fds.Values`list, contexts.Values`window, windows
      ensures Awaits(w) && windows == old(windows) - {w} && (fresh(w) || w in old(windows))
      ensures Known(c) && c.id == context && c in contexts.Values && c.window == old(OwnWindow(context))
      ensures contexts.Keys == old(contexts).Keys + {context}
      ensures (forall x :: x in fds.Values ==> x in old(fds).Values || fresh(x)) && forall x :: x in contexts.Values ==> x in old(contexts).Values || fresh(x)
      ensures f in fds.Values && f.fd == n && n in fds && fds[n] == f && forall x :: x in old(contexts).Values ==> x in contexts.Values
      ensures old(nWindows) <= WINDOWS_MIN ==> fresh(w) && unusedList == old(unusedList) && lastUnused == old(lastUnused)
      ensures forall x :: x in old(contexts).Values ==> x.window == old(x.window)
      ensures forall x :: x in old(windows) && x in windows ==> x.Range() == old(x.Range())
    {
      hide Awaits, Valid, FdPart, UsePart, UnusedPart, Known, Window.Range, OwnWindow;
      c := AddContext(context);
      assert nWindows == old(nWindows) && unusedList == old(unusedList) && lastUnused == old(lastUnused) && windows == old(windows);
      f := AddFd(n);
      w := AddWindow();
    }

    /** The context uses a window made for this purpose. */
    ghost predicate Installed(context: nat, n: nat, prot: nat, keepAlways: bool, ptr: nat, woffset: nat, wsize: nat)
      reads this`contexts, contexts.Values`window, this`windows, windows
    {
      && context in contexts && contexts[context].window != null && contexts[context].window in windows
      && (var w := contexts[context].window;
          && w.fd != null && w.fd.fd == n && w.prot == prot && w.offset == woffset && w.size == wsize && w.ptr == ptr
          && w.keepAlways == keepAlways)
    }

    method InstallNew(n: nat, prot: nat, context: nat, keepAlways: bool, ptr: nat, woffset: nat, wsize: nat)
      requires Valid()
      modifies this`nWindows, this`fds, this`contexts, this`unused, this`lastUnused, this`unusedList, this`windows
      modifies fds.Values, contexts.Values, windows
      ensures Valid() && Installed(context, n, prot, keepAlways, ptr, woffset, wsize)
      ensures (forall x :: x in fds.Values ==> x in old(fds).Values || fresh(x)) && forall x :: x in contexts.Values ==> x in old(contexts).Values || fresh(x)
      ensures forall w :: w in windows ==> w in old(windows) || (w == OwnWindow(context) && fresh(w))
      ensures old(nWindows) <= WINDOWS_MIN ==> OwnWindow(context) != null && fresh(OwnWindow(context)) && windows == old(windows) + {OwnWindow(context)}
      ensures old(nWindows) <= WINDOWS_MIN && old(OwnWindow(context)) == null ==> unusedList == old(unusedList) && lastUnused == old(lastUnused)
      ensures contexts.Keys == old(contexts).Keys + {context}
      ensures forall c :: c in old(contexts).Values && c.id != context ==> c.window == old(c.window)
      ensures forall w :: w in old(windows) && w in windows && w != OwnWindow(context) ==> w.Range() == old(w.Range())
    {
      hide Awaits, Valid, Window.Range, Installed;
      var c, f, w := Prepare(n, context);
      assert context in contexts && contexts[context] == c;
      hide Known;
      InstallWindow(w, c, f, keepAlways, ptr, woffset, prot, wsize);
      assert OwnWindow(context) == w && w in windows;
      ThusInstalled(w, context, n, prot, keepAlways, ptr, woffset, wsize);
    }

    lemma {:induction false} ThusInstalled(w: Window, context: nat, n: nat, prot: nat, keepAlways: bool, ptr: nat, woffset: nat, wsize: nat)
      requires OwnWindow(context) == w && w in windows && w.fd != null && w.fd.fd == n
      requires w.prot == prot && w.offset == woffset && w.size == wsize && w.ptr == ptr && w.keepAlways == keepAlways
      ensures Installed(context, n, prot, keepAlways, ptr, woffset, wsize)
    {
    }

    ghost predicate AnyMatch(n: nat, prot: nat, offset: nat, size: nat)
      reads this`windows, windows`fd, windows`prot, windows`offset, windows`size
    {
      exists w :: w in windows && w.Matches(n, prot, offset, size)
    }

    /** A window on record that covers the request: the one the context has, or another one of the file. */
    method Find(n: nat, prot: nat, context: nat, keepAlways: bool, offset: nat, size: nat) returns (r: Option<nat>)
      requires Valid()
      modifies this`contexts, this`unused, this`lastUnused, this`unusedList, contexts.Values, windows
      ensures Valid() && (r.Some? ==> Served(n, prot, context, keepAlways, offset, size, r.value))
      ensures r.Some? <==> old(AnyMatch(n, prot, offset, size))
      ensures old(OwnMatch(n, prot, context, offset, size)) ==> r.Some? && unusedList == old(unusedList) && lastUnused == old(lastUnused)
      ensures r.Some? && !old(OwnMatch(n, prot, context, offset, size)) ==>
                TakenFrom(old(UnusedFor(context)), old(LastFor(context)), OwnWindow(context))
      ensures r.None? ==> OwnWindow(context) == null && unusedList == old(UnusedFor(context)) && lastUnused == old(LastFor(context))
      ensures contexts.Keys <= old(contexts).Keys + {context} && forall c :: c in contexts.Values ==> c in old(contexts).Values || fresh(c)
      ensures r.None? ==> contexts == old(contexts)
      ensures forall c :: c in old(contexts).Values && c.id != context ==> c.window == old(c.window)
      ensures forall w :: w in windows ==> w.Range() == old(w.Range())
    {
      hide FdPart, UsePart, UnusedPart, Deserted;
      KnownContexts();
      r := TryContext(n, prot, context, keepAlways, offset, size);
      if r.None? {
        r := FindMmap(n, prot, context, keepAlways, offset, size);
      }
    }

    lemma {:induction false} KnownContexts()
      requires UsePart(windows)
      ensures forall id :: id in contexts && contexts[id].window != null ==> contexts[id].window in windows
    {
    }

    /** A window that covers the request: the one the context has, another one of the file, or a new one. */
    method Get(n: nat, prot: nat, context: nat, keepAlways: bool, offset: nat, size: nat, fileSize: Option<nat>, system: System)
      returns (r: GetResult)
      requires Valid() && size > 0
      modifies this, fds.Values, contexts.Values, windows
      ensures Valid()
      ensures (forall x :: x in fds.Values ==> x in old(fds).Values || fresh(x)) && forall x :: x in contexts.Values ==> x in old(contexts).Values || fresh(x)
      ensures forall x :: x in windows ==> x in old(windows) || fresh(x)
      ensures r.Mapped? && (fileSize.None? || offset + size <= PageAlign(fileSize.value)) ==>
                Served(n, prot, context, keepAlways, offset, size, r.ptr)
      ensures !old(AnyMatch(n, prot, offset, size)) ==> (r.NotAvailable? <==> fileSize.Some? && WindowStart(offset, size) >= fileSize.value)
      ensures r.NotAvailable? ==> !WithinFile(fileSize, offset, size)
      ensures !old(AnyMatch(n, prot, offset, size)) && !r.NotAvailable? ==> SystemSays(system, Room(r, context))
      ensures WithinFile(fileSize, offset, size) && system(0).Pages? ==>
                r.Mapped? && Served(n, prot, context, keepAlways, offset, size, r.ptr)
      ensures nHit + nMissed == old(nHit + nMissed) + 1 && (nHit > old(nHit) <==> old(AnyMatch(n, prot, offset, size)))
      ensures old(OwnMatch(n, prot, context, offset, size)) ==> unusedList == old(unusedList) && lastUnused == old(lastUnused)
      ensures old(AnyMatch(n, prot, offset, size) && !OwnMatch(n, prot, context, offset, size)) ==>
                windows == old(windows) && TakenFrom(old(UnusedFor(context)), old(LastFor(context)), OwnWindow(context))
      ensures old(AnyMatch(n, prot, offset, size)) ==> r.Mapped? && Served(n, prot, context, keepAlways, offset, size, r.ptr)
      ensures !old(AnyMatch(n, prot, offset, size)) && WithinFile(fileSize, offset, size) && system(0).Pages? && old(nWindows) <= WINDOWS_MIN ==>
                && NewlyMapped(old(windows), n, prot, context, keepAlways, offset, size) && fresh(OwnWindow(context))
                && unusedList == old(UnusedFor(context)) && lastUnused == old(LastFor(context))
      ensures !old(AnyMatch(n, prot, offset, size)) && WithinFile(fileSize, offset, size) && system(0).OutOfMemory? && old(LastFor(context)) == null ==>
                r == NoMemory && windows == old(windows) && unusedList == old(UnusedFor(context)) && lastUnused == null
      ensures contexts.Keys <= old(contexts).Keys + {context}
      ensures forall c :: c in old(contexts).Values && c.id != context ==> c.window == old(c.window)
      ensures forall w :: w in old(windows) && w in windows && (w != OwnWindow(context) || old(AnyMatch(n, prot, offset, size))) ==>
                w.Range() == old(w.Range())
    {
      hide FdPart, UsePart, UnusedPart, PageAlign, AnyMatch, OwnMatch, UnusedFor, LastFor, TakenFrom, NewlyMapped, Served, Window.Range, SystemSays, WindowStart;
      var found := Find(n, prot, context, keepAlways, offset, size);
      if found.Some? {
        nHit := nHit + 1;
        return Mapped(found.value);
      }
      nMissed := nMissed + 1;
      r := AddMmap(n, prot, context, keepAlways, offset, size, fileSize, system);
    }

    /** Frees all windows of a file. */
    method FreeWindows(f: FileDescriptor)
      requires Valid() && f.fd in fds && fds[f.fd] == f
      modifies this`nWindows, this`unused, this`lastUnused, this`unusedList, this`windows, fds.Values`windows, fds.Values`list, contexts.Values`window
      modifies windows`byFdNext, windows`byFdPrev, windows`unusedNext, windows`unusedPrev
      ensures Valid()
      ensures forall w :: w in windows <==> w in old(windows) && w.fd != f
    {
      hide FdPart, UsePart, UnusedPart;
      while f.windows != null
        invariant Valid() && windows <= old(windows)
        invariant forall w :: w in old(windows) && w.fd != f ==> w in windows
        decreases |windows|
      {
        FirstWindow(f);
        FreeWindow(f.windows);
      }
      NoWindowLeft(f);
    }

    method RemoveFd(n: nat)
      requires Valid() && n in fds && forall w :: w in windows ==> w.fd != fds[n]
      modifies this`fds
      ensures Valid() && fds == old(fds) - {n}
    {
      hide UsePart, UnusedPart;
      ghost var before := fds;
      fds := fds - {n};
      assert forall m :: m in fds ==> fds[m] == before[m];
    }

    /** Forgets a file and all its windows. */
    method CloseFd(n: nat)
      requires Valid()
      modifies this`nWindows, this`unused, this`lastUnused, this`unusedList, this`windows, this`fds
      modifies fds.Values`windows, fds.Values`list, contexts.Values`window
      modifies windows`byFdNext, windows`byFdPrev, windows`unusedNext, windows`unusedPrev
      ensures Valid() && fds == old(fds) - {n}
      ensures forall w :: w in windows <==> w in old(windows) && (w.fd == null || w.fd.fd != n)
    {
      hide FdPart, UsePart, UnusedPart;
      WindowFds(n);
      if n !in fds {
        return;
      }
      var f := fds[n];
      FreeWindows(f);
      RemoveFd(n);
    }

    lemma {:induction false} WindowFds(n: nat)
      requires FdPart(windows)
      ensures n !in fds ==> forall w :: w in windows ==> w.fd != null && w.fd.fd != n
      ensures n in fds ==> fds[n].fd == n && forall w :: w in windows ==> w.fd != null && (w.fd == fds[n] <==> w.fd.fd == n)
    {
    }

    lemma {:induction false} FirstWindow(f: FileDescriptor)
      requires FdPart(windows) && f.fd in fds && fds[f.fd] == f && f.windows != null
      ensures f.windows in windows && f.windows.fd == f
    {
      assert f.ListOk() && f.windows == f.list[0] && f.list[0] in f.list;
    }

    lemma {:induction false} NoWindowLeft(f: FileDescriptor)
      requires FdPart(windows) && f.fd in fds && fds[f.fd] == f && f.windows == null
      ensures forall w :: w in windows ==> w.fd != f
    {
      assert f.ListOk();
    }
  }

  datatype SystemAnswer = Pages(address: nat) | OutOfMemory | Error

  type System = nat -> SystemAnswer

  datatype GetResult = Mapped(ptr: nat) | NotAvailable | NoMemory | Failed

  /** The result is what the system answered last, after having had no memory all the times before. */
  ghost predicate SystemSays(system: System, r: GetResult) {
    exists i: nat :: (forall j :: 0 <= j < i ==> system(j).OutOfMemory?) && SaysThen(system, i, r)
  }

  ghost predicate SaysThen(system: System, i: nat, r: GetResult) {
    match system(i)
    case Pages(d) => r == Mapped(d)
    case Error => r == Failed
    case OutOfMemory => r == NoMemory
  }

  lemma {:induction false} SaysSo(system: System, i: nat, r: GetResult)
    requires (forall j :: 0 <= j < i ==> system(j).OutOfMemory?) && SaysThen(system, i, r)
    ensures SystemSays(system, r)
  {
  }

  /** The request lies within the file, if its size is known. */
  predicate WithinFile(fileSize: Option<nat>, offset: nat, size: nat) {
    fileSize.None? || offset + size <= fileSize.value
  }

  // ---------- the last unused window is forgotten ----------

  const FAR: nat := 64 * 1024 * 1024

  /** The window lies around this place of file 0, and not near any other one looked at here. */
  predicate Around(w: Window, place: nat)
    reads w`fd, w`prot, w`offset, w`size
  {
    w.fd != null && w.fd.fd == 0 && w.prot == 0 && w.offset <= place < w.offset + w.size && w.size <= WINDOW_SIZE + 1
  }

  /** Only context 0 has been used, and its window, if it has one, is not to be kept. */
  ghost predicate OneContext(m: MMapCache)
    reads m, m.fds.Values, m.contexts.Values, m.windows
  {
    m.Valid() && m.contexts.Keys <= {0} && (m.OwnWindow(0) != null ==> m.OwnWindow(0) in m.windows && !m.OwnWindow(0).keepAlways)
  }

  lemma {:induction false} OneLeaves(m: MMapCache)
    requires OneContext(m)
    ensures m.UnusedFor(0) == if m.OwnWindow(0) != null then [m.OwnWindow(0)] + m.unusedList else m.unusedList
    ensures m.LastFor(0) == if m.lastUnused == null then m.OwnWindow(0) else m.lastUnused
  {
    hide MMapCache.Valid;
    if m.OwnWindow(0) != null {
      forall x | x in m.contexts.Values ensures x == m.contexts[0] {
        var id :| id in m.contexts && m.contexts[id] == x;
      }
    }
  }

  /** Context 0 asks for a place that no window shows. */
  method AskNew(m: MMapCache, place: nat, pages: System)
    requires OneContext(m) && m.nWindows < WINDOWS_MIN && pages(0).Pages? && !m.AnyMatch(0, 0, place, 1)
    modifies m, m.fds.Values, m.contexts.Values, m.windows
    ensures OneContext(m) && m.OwnWindow(0) != null && fresh(m.OwnWindow(0)) && Around(m.OwnWindow(0), place)
    ensures m.windows == old(m.windows) + {m.OwnWindow(0)} && m.nWindows == old(m.nWindows) + 1
    ensures m.unusedList == if old(m.OwnWindow(0)) != null then [old(m.OwnWindow(0))] + old(m.unusedList) else old(m.unusedList)
    ensures m.lastUnused == if old(m.lastUnused) == null then old(m.OwnWindow(0)) else old(m.lastUnused)
    ensures forall w, p :: w in old(m.windows) && old(Around(w, p)) ==> Around(w, p)
    ensures (forall x :: x in m.fds.Values ==> x in old(m.fds).Values || fresh(x)) && forall x :: x in m.contexts.Values ==> x in old(m.contexts).Values || fresh(x)
  {
    hide MMapCache.FdPart, MMapCache.UsePart, MMapCache.UnusedPart, MMapCache.UnusedFor, MMapCache.LastFor, MMapCache.AnyMatch, MMapCache.OwnMatch,
         MMapCache.Served, MMapCache.TakenFrom;
    OneLeaves(m);
    var r := m.Get(0, 0, 0, false, place, 1, None, pages);
  }

  /** Three places of the file are shown; context 0 uses the last one only. */
  ghost predicate ThreeWindows(m: MMapCache, a: Window, b: Window, c: Window)
    reads m, m.fds.Values, m.contexts.Values, m.windows
  {
    && OneContext(m) && m.windows == {a, b, c} && a != b && a != c && m.nWindows == 3
    && m.OwnWindow(0) == c && m.unusedList == [b, a] && m.lastUnused == a
    && Around(a, 0) && Around(b, FAR) && Around(c, 2 * FAR)
  }

  lemma {:induction false} FarApart(m: MMapCache, w: Window, p: nat, place: nat)
    requires Around(w, p) && (p + FAR <= place || place + FAR <= p)
    ensures !w.Matches(0, 0, place, 1)
  {
  }

  method OnePlace(pages: System) returns (m: MMapCache, ghost a: Window)
    requires pages(0).Pages?
    ensures fresh(m) && fresh(a) && (forall x :: x in m.fds.Values ==> fresh(x)) && forall x :: x in m.contexts.Values ==> fresh(x)
    ensures OneContext(m) && m.windows == {a} && m.nWindows == 1 && m.OwnWindow(0) == a && m.unusedList == [] && m.lastUnused == null
    ensures Around(a, 0)
  {
    hide Around, OneContext, MMapCache.Valid;
    m := new MMapCache();
    NewCache(m);
    AskNew(m, 0, pages);
    a := m.OwnWindow(0);
  }

  method TwoPlaces(pages: System) returns (m: MMapCache, ghost a: Window, ghost b: Window)
    requires pages(0).Pages?
    ensures fresh(m) && fresh(a) && fresh(b) && (forall x :: x in m.fds.Values ==> fresh(x)) && forall x :: x in m.contexts.Values ==> fresh(x)
    ensures OneContext(m) && m.windows == {a, b} && m.nWindows == 2 && m.OwnWindow(0) == b && m.unusedList == [a] && m.lastUnused == a
    ensures a != b && Around(a, 0) && Around(b, FAR)
  {
    hide Around, OneContext, MMapCache.Valid;
    m, a := OnePlace(pages);
    FarApart(m, a, 0, FAR);
    AskNew(m, FAR, pages);
    b := m.OwnWindow(0);
  }

  method ThreePlaces(pages: System) returns (m: MMapCache, ghost a: Window, ghost b: Window, ghost c: Window)
    requires pages(0).Pages?
    ensures fresh(m) && fresh(a) && fresh(b) && fresh(c) && (forall x :: x in m.fds.Values ==> fresh(x)) && forall x :: x in m.contexts.Values ==> fresh(x)
    ensures ThreeWindows(m, a, b, c)
  {
    hide Around, OneContext, MMapCache.Valid;
    m, a, b := TwoPlaces(pages);
    FarApart(m, a, 0, 2 * FAR);
    FarApart(m, b, FAR, 2 * FAR);
    AskNew(m, 2 * FAR, pages);
    c := m.OwnWindow(0);
  }

  lemma {:induction false} NewCache(m: MMapCache)
    requires m.Valid() && m.contexts == map[]
    ensures OneContext(m) && m.OwnWindow(0) == null
  {
    hide MMapCache.Valid;
  }

  /** Context 0 takes back the window that is on record as the last unused one. */
  method TakeLast(m: MMapCache, pages: System, ghost a: Window, ghost b: Window, ghost c: Window)
    requires ThreeWindows(m, a, b, c)
    modifies m, m.fds.Values, m.contexts.Values, m.windows
    ensures m.Valid() && m.contexts.Keys <= {0} && m.windows == {a, b, c} && Around(a, 0) && Around(b, FAR) && Around(c, 2 * FAR)
    ensures m.lastUnused == null && b in m.unusedList && c in m.unusedList && b != c
    ensures (forall x :: x in m.fds.Values ==> x in old(m.fds).Values || fresh(x)) && forall x :: x in m.contexts.Values ==> x in old(m.contexts).Values || fresh(x)
  {
    hide MMapCache.Valid, MMapCache.UnusedFor, MMapCache.LastFor;
    OneLeaves(m);
    FarApart(m, b, FAR, 0);
    FarApart(m, c, 2 * FAR, 0);
    assert a.Matches(0, 0, 0, 1);
    assert b in m.UnusedFor(0) && c in m.UnusedFor(0);
    var r := m.Get(0, 0, 0, false, 0, 1, None, pages);
  }

  lemma {:induction false} NewContext(m: MMapCache)
    requires m.contexts.Keys <= {0}
    ensures m.UnusedFor(1) == m.unusedList && m.LastFor(1) == m.lastUnused
  {
  }

  lemma {:induction false} TwoItems(s: seq<Window>, b: Window, c: Window)
    requires b in s && c in s && b != c
    ensures |s| >= 2
  {
  }

  /** A request of another context, for a place no window shows. */
  method AskElsewhere(m: MMapCache, noMemory: System, ghost a: Window, ghost b: Window, ghost c: Window) returns (r: GetResult)
    requires m.Valid() && m.contexts.Keys <= {0} && m.windows == {a, b, c} && Around(a, 0) && Around(b, FAR) && Around(c, 2 * FAR)
    requires m.lastUnused == null && noMemory(0).OutOfMemory?
    modifies m, m.fds.Values, m.contexts.Values, m.windows
    ensures m.Valid() && r == NoMemory && m.lastUnused == null && m.unusedList == old(m.unusedList)
  {
    hide Around, MMapCache.Valid, MMapCache.UnusedFor, MMapCache.LastFor;
    NewContext(m);
    FarApart(m, a, 0, 3 * FAR);
    FarApart(m, b, FAR, 3 * FAR);
    FarApart(m, c, 2 * FAR, 3 * FAR);
    r := m.Get(0, 0, 1, false, 3 * FAR, 1, None, noMemory);
  }

  /** Context 0 leaves three windows unused and takes the one on record as the last of them back: none is on record any
      more. The next request that finds no memory fails, though two windows are unused. */
  method ForgetLast(pages: System, noMemory: System) returns (m: MMapCache, r: GetResult)
    requires pages(0).Pages? && noMemory(0).OutOfMemory?
    ensures m.Valid() && r == NoMemory && m.lastUnused == null && |m.unusedList| >= 2
  {
    hide MMapCache.Valid, Around, OneContext;
    ghost var a, b, c;
    m, a, b, c := ThreePlaces(pages);
    TakeLast(m, pages, a, b, c);
    TwoItems(m.unusedList, b, c);
    r := AskElsewhere(m, noMemory, a, b, c);
  }
}
