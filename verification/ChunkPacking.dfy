/** Packing groups of entries into RPCs: a group that fits goes whole into the
    last chunk or a new one; a larger group is cut, and its outer tweet is
    repeated in each part. */
module ChunkPacking {
  import opened Basics
  import opened ChunkGroups

  /** The outer tweet of a group that is cut. */
  ghost predicate Repeated(groups: seq<seq<nat>>, places: Places, x: nat) {
    x in places && places[x].0 < |groups| && |groups[places[x].0]| > MAX_BATCH && places[x].1 == 0
  }

  /** An entry of one of the first `n` groups, or of group `n` before position `m`. */
  ghost predicate Taken(places: Places, x: nat, n: nat, m: nat) {
    x in places && (places[x].0 < n || (places[x].0 == n && places[x].1 < m))
  }

  /** Entry `x` has chunk `home[x]`, with the head of its group in it. */
  ghost predicate AtHome(groups: seq<seq<nat>>, places: Places, chunks: seq<seq<nat>>, home: map<nat, nat>, x: nat) {
    && x in places && places[x].0 < |groups| && groups[places[x].0] != []
    && x in home && home[x] < |chunks| && x in chunks[home[x]] && groups[places[x].0][0] in chunks[home[x]]
  }

  /** Entry `x` may be in chunk `c`. */
  ghost predicate Belongs(groups: seq<seq<nat>>, places: Places, home: map<nat, nat>, c: nat, x: nat, n: nat, m: nat) {
    Taken(places, x, n, m) && (Repeated(groups, places, x) || (x in home && home[x] == c))
  }

  /** The chunks hold exactly the entries taken, each in its one chunk unless it
      is repeated. */
  ghost predicate Packed(groups: seq<seq<nat>>, places: Places, chunks: seq<seq<nat>>, home: map<nat, nat>,
                         n: nat, m: nat)
  {
    && (forall c :: 0 <= c < |chunks| ==> 1 <= |chunks[c]| <= MAX_BATCH && Distinct(chunks[c]))
    && (forall c, x :: 0 <= c < |chunks| && x in chunks[c] ==>
          Belongs(groups, places, home, c, x, n, m))
    && (forall x :: Taken(places, x, n, m) && !Repeated(groups, places, x) ==> AtHome(groups, places, chunks, home, x))
    && Tight(chunks)
  }

  /** A cut group is spread over at least two chunks. */
  ghost predicate Spread(groups: seq<seq<nat>>, home: map<nat, nat>, n: nat) {
    forall g :: 0 <= g < n && g < |groups| && |groups[g]| > MAX_BATCH ==> IsSpread(groups[g], home)
  }

  ghost predicate IsSpread(group: seq<nat>, home: map<nat, nat>) {
    |group| > MAX_BATCH && group[1] in home && group[MAX_BATCH] in home && home[group[1]] != home[group[MAX_BATCH]]
  }

  ghost function Homes(groups: seq<seq<nat>>, places: Places, home: map<nat, nat>, added: seq<nat>, c: nat):
    map<nat, nat>
  {
    home + map x | x in added && !Repeated(groups, places, x) :: c
  }

  /** The entries of group `n` from position `m` up to `m'`, with the group's head. */
  ghost predicate IsPart(groups: seq<seq<nat>>, places: Places, part: seq<nat>, n: nat, m: nat, m': nat) {
    && n < |groups| && m <= m' <= |groups[n]| && groups[n] != []
    && groups[n][0] in part
    && (forall x :: x in part ==>
          x in places && places[x].0 == n && places[x].1 < m' && (m <= places[x].1 || Repeated(groups, places, x)))
    && (forall p :: m <= p < m' ==> groups[n][p] in part)
  }

  lemma PushPart(groups: seq<seq<nat>>, places: Places, chunks: seq<seq<nat>>, home: map<nat, nat>,
                 part: seq<nat>, n: nat, m: nat, m': nat)
    requires PlacesOk(groups, places) && Packed(groups, places, chunks, home, n, m)
    requires IsPart(groups, places, part, n, m, m') && Distinct(part) && 1 <= |part| <= MAX_BATCH
    requires chunks != [] ==> |chunks[|chunks| - 1]| + |part| > MAX_BATCH
    ensures Packed(groups, places, chunks + [part], Homes(groups, places, home, part, |chunks|), n, m')
  {
    var chunks', home' := chunks + [part], Homes(groups, places, home, part, |chunks|);
    forall x | Taken(places, x, n, m') && !Repeated(groups, places, x)
      ensures AtHome(groups, places, chunks', home', x)
    {
      if Taken(places, x, n, m) {
        assert AtHome(groups, places, chunks, home, x);
        assert x !in part;
      } else {
        assert groups[n][places[x].1] == x;
      }
    }
    forall c, x | 0 <= c < |chunks'| && x in chunks'[c]
      ensures Belongs(groups, places, home', c, x, n, m')
    {
      if c < |chunks| {
        assert x in chunks[c] && Belongs(groups, places, home, c, x, n, m);
      }
    }
  }

  /** A group that fits is one part, at once. */
  lemma WholeGroupIsPart(groups: seq<seq<nat>>, places: Places, n: nat)
    requires PlacesOk(groups, places) && n < |groups|
    ensures IsPart(groups, places, groups[n], n, 0, |groups[n]|) && Distinct(groups[n])
  {
    var group := groups[n];
    forall x | x in group ensures x in places && places[x].0 == n && places[x].1 < |group| {
      var p :| 0 <= p < |group| && group[p] == x;
      assert places[groups[n][p]] == (n, p);
    }
    forall i, j | 0 <= i < j < |group| ensures group[i] != group[j] {
      assert places[groups[n][i]] == (n, i) && places[groups[n][j]] == (n, j);
    }
  }

  lemma JoinLast(groups: seq<seq<nat>>, places: Places, chunks: seq<seq<nat>>, home: map<nat, nat>, n: nat)
    requires PlacesOk(groups, places) && Packed(groups, places, chunks, home, n, 0) && n < |groups|
    requires chunks != [] && |chunks[|chunks| - 1]| + |groups[n]| <= MAX_BATCH
    ensures var last := |chunks| - 1;
            Packed(groups, places, chunks[last := chunks[last] + groups[n]],
                   Homes(groups, places, home, groups[n], last), n, |groups[n]|)
  {
    WholeGroupIsPart(groups, places, n);
    var last, group := |chunks| - 1, groups[n];
    var chunks', home' := chunks[last := chunks[last] + group], Homes(groups, places, home, group, last);
    forall x | x in chunks[last] ensures x !in group {
      assert Belongs(groups, places, home, last, x, n, 0);
    }
    JoinDistinct(chunks[last], group);
    forall x | Taken(places, x, n, |group|) && !Repeated(groups, places, x)
      ensures AtHome(groups, places, chunks', home', x)
    {
      JoinedAtHome(groups, places, chunks, home, n, x);
    }
    forall c, x | 0 <= c < |chunks'| && x in chunks'[c]
      ensures Belongs(groups, places, home', c, x, n, |group|)
    {
      JoinedBelongs(groups, places, chunks, home, n, c, x);
    }
  }

  lemma JoinDistinct(a: seq<nat>, b: seq<nat>)
    requires Distinct(a) && Distinct(b) && forall x :: x in a ==> x !in b
    ensures Distinct(a + b)
  {
    forall i, j | 0 <= i < j < |a + b| ensures (a + b)[i] != (a + b)[j] {
      if i < |a| <= j {
        assert a[i] in a && b[j - |a|] in b;
      }
    }
  }

  /** An entry of the groups taken is in its chunk after group `n` has joined the last one. */
  lemma JoinedAtHome(groups: seq<seq<nat>>, places: Places, chunks: seq<seq<nat>>, home: map<nat, nat>, n: nat, x: nat)
    requires PlacesOk(groups, places) && Packed(groups, places, chunks, home, n, 0) && n < |groups| && chunks != []
    requires IsPart(groups, places, groups[n], n, 0, |groups[n]|)
    requires Taken(places, x, n, |groups[n]|) && !Repeated(groups, places, x)
    ensures var last := |chunks| - 1;
            AtHome(groups, places, chunks[last := chunks[last] + groups[n]],
                   Homes(groups, places, home, groups[n], last), x)
  {
    if Taken(places, x, n, 0) {
      assert AtHome(groups, places, chunks, home, x);
      assert x !in groups[n];
    } else {
      assert groups[n][places[x].1] == x;
    }
  }

  lemma JoinedBelongs(groups: seq<seq<nat>>, places: Places, chunks: seq<seq<nat>>, home: map<nat, nat>, n: nat, c: nat,
                      x: nat)
    requires PlacesOk(groups, places) && Packed(groups, places, chunks, home, n, 0) && n < |groups| && chunks != []
    requires IsPart(groups, places, groups[n], n, 0, |groups[n]|) && |groups[n]| <= MAX_BATCH
    requires var last := |chunks| - 1; c < |chunks| && x in chunks[last := chunks[last] + groups[n]][c]
    ensures Belongs(groups, places, Homes(groups, places, home, groups[n], |chunks| - 1), c, x, n, |groups[n]|)
  {
    if x in chunks[c] {
      assert Belongs(groups, places, home, c, x, n, 0);
      assert x !in groups[n];
    } else {
      assert x in groups[n] && c == |chunks| - 1;
      assert places[x].0 == n && places[x].1 < |groups[n]|;
    }
  }

  lemma HomesKeepsSpread(groups: seq<seq<nat>>, places: Places, home: map<nat, nat>, part: seq<nat>, c: nat,
                         n: nat, m: nat, m': nat)
    requires PlacesOk(groups, places) && Spread(groups, home, n) && IsPart(groups, places, part, n, m, m')
    ensures Spread(groups, Homes(groups, places, home, part, c), n)
  {
    forall g | 0 <= g < n && g < |groups| && |groups[g]| > MAX_BATCH
      ensures IsSpread(groups[g], Homes(groups, places, home, part, c))
    {
      assert IsSpread(groups[g], home);
      assert places[groups[g][1]].0 == g && places[groups[g][MAX_BATCH]].0 == g;
    }
  }

  /** The part of a cut group from position `m` on: the outer tweet, then quotes. */
  lemma CutIsPart(groups: seq<seq<nat>>, places: Places, n: nat, m: nat, m': nat)
    requires PlacesOk(groups, places) && n < |groups| && |groups[n]| > MAX_BATCH
    requires 1 <= m < m' <= |groups[n]|
    ensures var part := [groups[n][0]] + groups[n][m..m'];
            IsPart(groups, places, part, n, m, m') && Distinct(part)
  {
    var group := groups[n];
    var part := [group[0]] + group[m..m'];
    forall x | x in part
      ensures x in places && places[x].0 == n && places[x].1 < m' && (m <= places[x].1 || Repeated(groups, places, x))
    {
      var k :| 0 <= k < |part| && part[k] == x;
      var p := if k == 0 then 0 else m + k - 1;
      assert groups[n][p] == x && places[groups[n][p]] == (n, p);
    }
    forall i, j | 0 <= i < j < |part| ensures part[i] != part[j] {
      var p, q := if i == 0 then 0 else m + i - 1, m + j - 1;
      assert places[groups[n][p]] == (n, p) && places[groups[n][q]] == (n, q);
    }
    assert forall p :: m <= p < m' ==> part[p - m + 1] == group[p];
  }

  /** Cuts a group that does not fit into parts of the outer tweet and up to 49
      quotes, each a chunk of its own. */
  method CutGroup(groups: seq<seq<nat>>, ghost places: Places, before: seq<seq<nat>>, ghost homeBefore: map<nat, nat>,
                  n: nat)
    returns (chunks: seq<seq<nat>>, ghost home: map<nat, nat>)
    requires PlacesOk(groups, places) && n < |groups| && |groups[n]| > MAX_BATCH
    requires Packed(groups, places, before, homeBefore, n, 0) && Spread(groups, homeBefore, n)
    ensures Packed(groups, places, chunks, home, n + 1, 0) && Spread(groups, home, n + 1)
  {
    var group := groups[n];
    chunks, home := before, homeBefore;
    var m := 1;
    while m < |group|
      invariant 1 <= m <= |group|
      invariant Packed(groups, places, chunks, home, n, m) && Spread(groups, home, n)
      invariant m == 1 <==> |chunks| == |before|
      invariant |chunks| >= |before|
      invariant |chunks| > |before| ==> m >= MAX_BATCH && group[1] in home && home[group[1]] == |before|
      invariant |chunks| == |before| + 1 ==> m == MAX_BATCH
      invariant |chunks| > |before| && m < |group| ==> |chunks[|chunks| - 1]| == MAX_BATCH
      invariant m > MAX_BATCH ==> group[MAX_BATCH] in home && home[group[MAX_BATCH]] > |before|
    {
      var m' := Min(m + MAX_BATCH - 1, |group|);
      var part := [group[0]] + group[m..m'];
      CutIsPart(groups, places, n, m, m');
      PushPart(groups, places, chunks, home, part, n, m, m');
      HomesKeepsSpread(groups, places, home, part, |chunks|, n, m, m');
      CutHomes(groups, places, home, |chunks|, n, m, m');
      home := Homes(groups, places, home, part, |chunks|);
      chunks := chunks + [part];
      m := m';
    }
    assert Packed(groups, places, chunks, home, n, |group|);
    GroupIsTaken(groups, places, chunks, home, n);
    assert IsSpread(group, home);
  }

  lemma CutHomes(groups: seq<seq<nat>>, places: Places, home: map<nat, nat>, c: nat, n: nat, m: nat, m': nat)
    requires PlacesOk(groups, places) && n < |groups| && |groups[n]| > MAX_BATCH
    requires 1 <= m < m' <= |groups[n]|
    ensures var group := groups[n];
            var home' := Homes(groups, places, home, [group[0]] + group[m..m'], c);
            forall p :: 1 <= p < |group| ==>
              if m <= p < m' then group[p] in home' && home'[group[p]] == c
              else (group[p] in home' <==> group[p] in home) && (group[p] in home ==> home'[group[p]] == home[group[p]])
  {
    var group := groups[n];
    var part := [group[0]] + group[m..m'];
    forall p | 1 <= p < |group| ensures !Repeated(groups, places, group[p]) && (group[p] in part <==> m <= p < m') {
      assert places[groups[n][p]] == (n, p) && places[groups[n][0]] == (n, 0);
      if m <= p < m' {
        assert part[p - m + 1] == group[p];
      }
      forall k | 0 <= k < |part| && part[k] == group[p] ensures m <= p < m' {
        var q := if k == 0 then 0 else m + k - 1;
        assert places[groups[n][q]] == (n, q);
      }
    }
  }

  lemma GroupIsTaken(groups: seq<seq<nat>>, places: Places, chunks: seq<seq<nat>>, home: map<nat, nat>, n: nat)
    requires PlacesOk(groups, places) && n < |groups| && Packed(groups, places, chunks, home, n, |groups[n]|)
    ensures Packed(groups, places, chunks, home, n + 1, 0)
  {
    forall c, x | 0 <= c < |chunks| && x in chunks[c]
      ensures Belongs(groups, places, home, c, x, n + 1, 0)
    {
      assert Belongs(groups, places, home, c, x, n, |groups[n]|);
    }
    forall x | Taken(places, x, n + 1, 0) && !Repeated(groups, places, x)
      ensures AtHome(groups, places, chunks, home, x)
    {
      assert Taken(places, x, n, |groups[n]|);
    }
  }

  method PackGroups(groups: seq<seq<nat>>, ghost places: Places)
    returns (chunks: seq<seq<nat>>, ghost home: map<nat, nat>)
    requires PlacesOk(groups, places)
    ensures Packed(groups, places, chunks, home, |groups|, 0) && Spread(groups, home, |groups|)
  {
    chunks, home := [], map[];
    for n := 0 to |groups|
      invariant Packed(groups, places, chunks, home, n, 0) && Spread(groups, home, n)
    {
      var group := groups[n];
      if |group| > MAX_BATCH {
        chunks, home := CutGroup(groups, places, chunks, home, n);
        continue;
      }
      WholeGroupIsPart(groups, places, n);
      var last := |chunks| - 1;
      if chunks != [] && |chunks[last]| + |group| <= MAX_BATCH {
        JoinLast(groups, places, chunks, home, n);
        HomesKeepsSpread(groups, places, home, group, last, n, 0, |group|);
        home := Homes(groups, places, home, group, last);
        chunks := chunks[last := chunks[last] + group];
      } else {
        PushPart(groups, places, chunks, home, group, n, 0, |group|);
        HomesKeepsSpread(groups, places, home, group, |chunks|, n, 0, |group|);
        home := Homes(groups, places, home, group, |chunks|);
        chunks := chunks + [group];
      }
      GroupIsTaken(groups, places, chunks, home, n);
    }
  }
}
