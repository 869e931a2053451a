/** internal/webauth/ratelimit.go: compaction in place over slices that share a backing array. */
module RateLimiter {
  /** Go's slice: a view of the first len elements of an array, with room up to the array's end. */
  datatype Slice = Slice(buf: array<int>, len: nat)

  /** The instants strictly after the cutoff, in order. */
  function Recent(s: seq<int>, cutoff: int): (r: seq<int>)
    ensures |r| <= |s|
  {
    if s == [] then [] else
    var rest, last := s[..|s| - 1], s[|s| - 1];
    if last > cutoff then Recent(rest, cutoff) + [last] else Recent(rest, cutoff)
  }

  type Lists = map<string, seq<int>>

  function Stored(st: Lists, key: string): seq<int> {
    if key in st then st[key] else []
  }

  /** One call: what is kept of the key's list, whether the attempt is allowed, and the new lists. */
  function Allowed(st: Lists, max: int, window: int, key: string, now: int): bool {
    |Recent(Stored(st, key), now - window)| < max
  }

  function After(st: Lists, max: int, window: int, key: string, now: int): Lists {
    st[key := NextList(Stored(st, key), max, window, now)]
  }

  /** The key's own list after the call: pruned, and this attempt recorded if allowed. */
  function NextList(list: seq<int>, max: int, window: int, now: int): seq<int> {
    var kept := Recent(list, now - window);
    if |kept| < max then kept + [now] else kept
  }

  class RateLimiter {
    var attempts: map<string, Slice>
    const max: int
    const window: int

    ghost var Contents: Lists                  // what each slice reads as
    ghost var Owner: map<array<int>, string>   // the key each backing array belongs to

    ghost predicate Valid()
      reads this, Owner.Keys
    {
      attempts.Keys == Contents.Keys && forall k :: k in attempts ==> ListOk(k)
    }

    /** The slice of k lies in an array of its own and reads as its list. */
    ghost predicate ListOk(k: string)
      requires k in attempts && k in Contents
      reads this, Owner.Keys
    {
      var s := attempts[k];
      s.buf in Owner && Owner[s.buf] == k && s.len <= s.buf.Length && s.buf[..s.len] == Contents[k]
    }

    ghost predicate OthersOk(key: string)
      reads this, Owner.Keys
    {
      attempts.Keys == Contents.Keys && forall k :: k in attempts && k != key ==> ListOk(k)
    }

    constructor (max: int, window: int)
      ensures Valid() && Contents == map[] && Owner == map[] && this.max == max && this.window == window
    {
      this.max := max;
      this.window := window;
      attempts := map[];
      Contents := map[];
      Owner := map[];
    }

    method Allow(key: string, now: int) returns (ok: bool)
      requires Valid()
      modifies this, Owner.Keys
      ensures Valid() && forall b :: b in Owner && b !in old(Owner) ==> fresh(b)
      ensures ok == Allowed(old(Contents), max, window, key, now)
      ensures Contents == After(old(Contents), max, window, key, now)
    {
      var list, kept := KeepRecent(key, now - window);
      ok := Decide(key, list, kept, now);
    }

    /** The pruning half of Allow: the recent attempts, moved to the front of the key's own array. */
    method KeepRecent(key: string, cutoff: int) returns (list: Slice, kept: nat)
      requires Valid()
      modifies this`Owner, Owner.Keys
      ensures OthersOk(key) && list.buf in Owner && Owner[list.buf] == key
      ensures forall b :: b in Owner && b !in old(Owner) ==> fresh(b)
      ensures kept <= list.buf.Length && list.buf[..kept] == Recent(Stored(Contents, key), cutoff)
    {
      list := Fetch(key);
      kept := Compact(list, cutoff);
    }

    /** The end of Allow: deny, or record this attempt behind the kept ones. */
    method Decide(key: string, list: Slice, kept: nat, now: int) returns (ok: bool)
      requires kept <= list.buf.Length && list.buf in Owner && Owner[list.buf] == key && OthersOk(key)
      modifies this, list.buf
      ensures Valid() && forall b :: b in Owner && b !in old(Owner) ==> fresh(b)
      ensures ok == (kept < max)
      ensures var recent := old(list.buf[..kept]);
              Contents == old(Contents)[key := if kept < max then recent + [now] else recent]
    {
      if kept >= max {
        Store(key, Slice(list.buf, kept));
        return false;
      }
      var longer := Append(list.buf, kept, now);
      Owner := Owner[longer.buf := key];
      Store(key, longer);
      return true;
    }

    /** l.attempts[key]: the nil slice when there is no entry. */
    method Fetch(key: string) returns (list: Slice)
      requires Valid()
      modifies this`Owner
      ensures Valid() && forall b :: b in Owner && b !in old(Owner) ==> fresh(b)
      ensures list.buf in Owner && Owner[list.buf] == key
      ensures list.len <= list.buf.Length && list.buf[..list.len] == Stored(Contents, key)
      ensures list.buf in old(Owner) || fresh(list.buf)
    {
      if key in attempts {
        assert ListOk(key);
        list := attempts[key];
      } else {
        var none := new int[0];
        list := Slice(none, 0);
        Owner := Owner[none := key];
      }
    }

    /** l.attempts[key] = s. */
    method Store(key: string, s: Slice)
      requires s.len <= s.buf.Length && s.buf in Owner && Owner[s.buf] == key && OthersOk(key)
      modifies this`attempts, this`Contents
      ensures Valid()
      ensures Contents == old(Contents)[key := s.buf[..s.len]]
    {
      attempts := attempts[key := s];
      Contents := Contents[key := s.buf[..s.len]];
    }
  }

  /** kept = append(kept, t) for every t after the cutoff, over the array being read. */
  method Compact(list: Slice, cutoff: int) returns (kept: nat)
    requires list.len <= list.buf.Length
    modifies list.buf
    ensures kept <= list.len && list.buf[..kept] == Recent(old(list.buf[..list.len]), cutoff)
  {
    var buf := list.buf;
    ghost var all := buf[..list.len];
    kept := 0;
    for i := 0 to list.len
      invariant kept <= i && buf[..kept] == Recent(all[..i], cutoff)
      invariant forall j :: i <= j < list.len ==> buf[j] == all[j]
    {
      var t := buf[i];
      assert all[..i + 1][..i] == all[..i];
      if t > cutoff {
        buf[kept] := t;
        kept := kept + 1;
        assert buf[..kept] == buf[..kept - 1] + [t];
      }
    }
    assert all[..list.len] == all;
  }

  /** append(kept, now): in place while there is room, into a larger array otherwise. */
  method Append(buf: array<int>, kept: nat, now: int) returns (longer: Slice)
    requires kept <= buf.Length
    modifies buf
    ensures longer.buf == buf || fresh(longer.buf)
    ensures longer.len == kept + 1 <= longer.buf.Length
    ensures longer.buf[..longer.len] == old(buf[..kept]) + [now]
  {
    if kept < buf.Length {
      buf[kept] := now;
      return Slice(buf, kept + 1);
    }
    var capacity: nat :| capacity > kept; // the runtime's growth policy
    var grown := new int[capacity];
    forall i | 0 <= i < kept {
      grown[i] := buf[i];
    }
    grown[kept] := now;
    return Slice(grown, kept + 1);
  }
}
