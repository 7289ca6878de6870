/**
 * The order in which the microphone menu lists input devices:
 * `sorted(devices, key=lambda d: d['name'].lower())` (modules/tray.py:44).
 * Python's `sorted` is a stable sort that compares keys with `<` only, and
 * strings compare lexicographically by code point.
 */
module DeviceOrder {

  /** An input device as the audio layer reports it. `identifier` is what
      `create_device_identifier(device)._asdict()` yields for it; that function
      is outside this model, so its result is carried with the device. */
  datatype Device<I> = Device(id: int, name: string, identifier: I)

  /** `str.lower` on one character, for the ASCII letters. */
  function LowerChar(c: char): char
  {
    if 'A' <= c <= 'Z' then (c as int + 32) as char else c
  }

  function Lower(s: string): (r: string)
    ensures |r| == |s|
  {
    seq(|s|, i requires 0 <= i < |s| => LowerChar(s[i]))
  }

  /** The sort key of modules/tray.py:44. */
  function Key<I>(d: Device<I>): string
  {
    Lower(d.name)
  }

  /** Python's `<` on strings: lexicographic by code point, a proper prefix
      being smaller. */
  predicate Less(a: string, b: string)
  {
    if a == [] then b != []
    else if b == [] then false
    else if a[0] != b[0] then a[0] < b[0]
    else Less(a[1..], b[1..])
  }

  lemma {:induction false} LessIrreflexive(a: string)
    ensures !Less(a, a)
  {
    if a != [] {
      LessIrreflexive(a[1..]);
    }
  }

  lemma {:induction false} LessTransitive(a: string, b: string, c: string)
    requires Less(a, b) && Less(b, c)
    ensures Less(a, c)
  {
    if a != [] && b != [] && c != [] && a[0] == b[0] == c[0] {
      LessTransitive(a[1..], b[1..], c[1..]);
    }
  }

  lemma {:induction false} LessTrichotomy(a: string, b: string)
    ensures a == b || Less(a, b) || Less(b, a)
  {
    if a != [] && b != [] && a[0] == b[0] {
      LessTrichotomy(a[1..], b[1..]);
      if a[1..] == b[1..] {
        assert a == [a[0]] + a[1..] && b == [b[0]] + b[1..];
      }
    }
  }

  lemma LessAsymmetric(a: string, b: string)
    requires Less(a, b)
    ensures !Less(b, a)
  {
  }

  /** "Not after": the order `sorted` leaves keys in. */
  predicate NotAfter(a: string, b: string)
  {
    !Less(b, a)
  }

  lemma NotAfterTransitive(a: string, b: string, c: string)
    requires NotAfter(a, b) && NotAfter(b, c)
    ensures NotAfter(a, c)
  {
    if Less(c, a) {
      LessTrichotomy(a, b);
      if Less(a, b) {
        LessTransitive(c, a, b);
      }
    }
  }

  /** The devices are in non-decreasing key order. */
  ghost predicate SortedByKey<I>(s: seq<Device<I>>)
  {
    forall i, j :: 0 <= i < j < |s| ==> NotAfter(Key(s[i]), Key(s[j]))
  }

  /** Places `d` in front of the first element whose key is not below its own. */
  function Insert<I>(d: Device<I>, s: seq<Device<I>>): seq<Device<I>>
  {
    if s == [] then [d]
    else if Less(Key(s[0]), Key(d)) then [s[0]] + Insert(d, s[1..])
    else [d] + s
  }

  /** `sorted(devices, key=...)`: insertion from the back, so that devices with
      equal keys keep their input order. */
  function SortByName<I>(ds: seq<Device<I>>): seq<Device<I>>
  {
    if ds == [] then [] else Insert(ds[0], SortByName(ds[1..]))
  }

  lemma {:induction false} InsertPermutes<I>(d: Device<I>, s: seq<Device<I>>)
    ensures multiset(Insert(d, s)) == multiset(s) + multiset{d}
  {
    if s != [] && Less(Key(s[0]), Key(d)) {
      InsertPermutes(d, s[1..]);
      assert s == [s[0]] + s[1..];
    }
  }

  lemma {:induction false} InsertSorted<I>(d: Device<I>, s: seq<Device<I>>)
    requires SortedByKey(s)
    ensures SortedByKey(Insert(d, s))
  {
    if s == [] {
    } else if Less(Key(s[0]), Key(d)) {
      var t := Insert(d, s[1..]);
      InsertSorted(d, s[1..]);
      InsertPermutes(d, s[1..]);
      forall j | 0 <= j < |t|
        ensures NotAfter(Key(s[0]), Key(t[j]))
      {
        assert t[j] in multiset(t);
        if t[j] == d {
          LessAsymmetric(Key(s[0]), Key(d));
        } else {
          assert t[j] in multiset(s[1..]);
          var k :| 0 <= k < |s[1..]| && s[1..][k] == t[j];
          assert s[k + 1] == t[j];
        }
      }
    } else {
      forall j | 0 <= j < |s|
        ensures NotAfter(Key(d), Key(s[j]))
      {
        if j > 0 {
          NotAfterTransitive(Key(d), Key(s[0]), Key(s[j]));
        }
      }
    }
  }

  /** The result of the sort is a permutation of the devices, in key order. */
  lemma {:induction false} SortByNameSpec<I>(ds: seq<Device<I>>)
    ensures multiset(SortByName(ds)) == multiset(ds)
    ensures SortedByKey(SortByName(ds))
  {
    if ds != [] {
      SortByNameSpec(ds[1..]);
      InsertPermutes(ds[0], SortByName(ds[1..]));
      InsertSorted(ds[0], SortByName(ds[1..]));
      assert ds == [ds[0]] + ds[1..];
    }
  }

  /** The devices whose key is `k`, in their order in `s`. */
  function WithKey<I>(s: seq<Device<I>>, k: string): seq<Device<I>>
  {
    if s == [] then []
    else (if Key(s[0]) == k then [s[0]] else []) + WithKey(s[1..], k)
  }

  lemma {:induction false} WithKeyInsert<I>(d: Device<I>, s: seq<Device<I>>, k: string)
    ensures WithKey(Insert(d, s), k) == (if Key(d) == k then [d] else []) + WithKey(s, k)
  {
    if s != [] && Less(Key(s[0]), Key(d)) {
      WithKeyInsert(d, s[1..], k);
      if Key(s[0]) == k {
        LessIrreflexive(k);
      }
    }
  }

  /** Stability: devices whose names agree up to case keep their input order. */
  lemma {:induction false} SortByNameStable<I>(ds: seq<Device<I>>, k: string)
    ensures WithKey(SortByName(ds), k) == WithKey(ds, k)
  {
    if ds != [] {
      SortByNameStable(ds[1..], k);
      WithKeyInsert(ds[0], SortByName(ds[1..]), k);
    }
  }
}
