/**
  The general commands: `commands`, which lists every registered command in
  embeds of at most 25 fields sorted by name, and the random replies of
  `8ball`, `flipcoin` and `rolldice`, whose random draw is a parameter.
*/
module HelpListing {
  import opened Text
  import opened Chat
  import opened Sorting
  import Commands

  // ---------------------------------------------------------------- sorting

  /** sort.Slice's comparison: by name. */
  predicate NameLe(a: Commands.Command, b: Commands.Command)
  {
    StrLe(a.name, b.name)
  }

  lemma NameLeIsTotalPreorder()
    ensures TotalPreorder(NameLe)
  {
    forall a: Commands.Command, b: Commands.Command ensures NameLe(a, b) || NameLe(b, a) {
      StrLeTotal(a.name, b.name);
    }
    forall a: Commands.Command, b: Commands.Command, c: Commands.Command | NameLe(a, b) && NameLe(b, c)
      ensures NameLe(a, c)
    {
      StrLeTrans(a.name, b.name, c.name);
    }
  }

  /** The listed commands in ascending order of name: a sorted permutation of them. */
  function SortedCommands(listed: seq<Commands.Command>): (r: seq<Commands.Command>)
    ensures multiset(r) == multiset(listed)
    ensures forall i, j :: 0 <= i < j < |r| ==> StrLe(r[i].name, r[j].name)
  {
    NameLeIsTotalPreorder();
    SortBy(listed, NameLe)
  }

  // ---------------------------------------------------------------- chunks

  /** The chunks of 25 the loop cuts, front to back; the last one holds what is left. */
  function ChunkSpec<T>(s: seq<T>): seq<seq<T>>
    decreases |s|
  {
    if |s| == 0 then []
    else if |s| > 25 then [s[..25]] + ChunkSpec(s[25..])
    else [s]
  }

  function Flatten<T>(ss: seq<seq<T>>): seq<T>
  {
    if |ss| == 0 then [] else ss[0] + Flatten(ss[1..])
  }

  /**
    The chunks give the sequence back when concatenated; there are
    ceil(n / 25) of them; each but the last has exactly 25 elements and the
    last between 1 and 25.
  */
  lemma {:induction false} ChunkSpecProperties<T>(s: seq<T>)
    ensures Flatten(ChunkSpec(s)) == s
    ensures |ChunkSpec(s)| == (|s| + 24) / 25
    ensures forall i :: 0 <= i < |ChunkSpec(s)| - 1 ==> |ChunkSpec(s)[i]| == 25
    ensures |ChunkSpec(s)| > 0 ==> 0 < |ChunkSpec(s)[|ChunkSpec(s)| - 1]| <= 25
    decreases |s|
  {
    if |s| > 25 {
      var rest := ChunkSpec(s[25..]);
      ChunkSpecProperties(s[25..]);
      var c := ChunkSpec(s);
      assert c == [s[..25]] + rest;
      assert c[1..] == rest;
      assert s[..25] + s[25..] == s;
      forall i | 0 <= i < |c| - 1 ensures |c[i]| == 25 {
        if i > 0 { assert c[i] == rest[i - 1]; }
      }
    } else if |s| > 0 {
      assert ChunkSpec(s) == [s];
      assert Flatten([s]) == s + Flatten([s][1..]);
    }
  }

  /** The slice a pass of the loop at position i appends: 25 elements, or what is left. */
  function ChunkAt<T>(s: seq<T>, i: nat): seq<T>
    requires i < |s|
  {
    if |s| > i + 25 then s[i..i + 25] else s[i..]
  }

  /** The chunking loop: from position 0 in steps of 25 while elements remain. */
  method Chunk<T>(s: seq<T>) returns (chunks: seq<seq<T>>)
    ensures chunks == ChunkSpec(s)
  {
    chunks := [];
    var i := 0;
    while i < |s|
      invariant i <= |s| ==> chunks + ChunkSpec(s[i..]) == ChunkSpec(s)
      invariant i > |s| ==> chunks == ChunkSpec(s)
      decreases |s| - i
    {
      ChunkStep(s, i);
      chunks := chunks + [ChunkAt(s, i)];
      i := i + 25;
    }
    if i == |s| {
      assert ChunkSpec(s[i..]) == [];
      assert chunks + [] == chunks;
    }
  }

  lemma ChunkStep<T>(s: seq<T>, i: nat)
    requires i < |s|
    ensures i + 25 <= |s| ==> ChunkSpec(s[i..]) == [ChunkAt(s, i)] + ChunkSpec(s[i + 25..])
    ensures i + 25 > |s| ==> ChunkSpec(s[i..]) == [ChunkAt(s, i)]
  {
    if |s| - i > 25 {
      assert s[i..][..25] == s[i..i + 25];
      assert s[i..][25..] == s[i + 25..];
    } else if i + 25 == |s| {
      assert ChunkSpec(s[i + 25..]) == [];
    }
  }

  // ---------------------------------------------------------------- fields and embeds

  /**
    A command's field value: help text over 250 bytes cut to its first 247
    and "..."; empty help text replaced by a fixed sentence.
  */
  function HelpValue(h: string): (v: string)
    ensures 0 < |v| <= 250
    ensures |h| > 250 ==> |v| == 250 && v[..247] == h[..247] && v[247..] == "..."
    ensures 0 < |h| <= 250 ==> v == h
    ensures h == "" ==> v == "No help text provided."
  {
    if |h| > 250 then h[..247] + "..."
    else if h == "" then "No help text provided."
    else h
  }

  function CommandField(c: Commands.Command): Field
  {
    Field(c.name, HelpValue(c.helpText), false)
  }

  /** The embed for one chunk: titled "Commands", one field per command in chunk order. */
  function ChunkEmbed(chunk: seq<Commands.Command>): (e: Embed)
    ensures e.title == "Commands" && |e.fields| == |chunk|
    ensures forall k :: 0 <= k < |chunk| ==> e.fields[k] == CommandField(chunk[k])
  {
    Embed("Commands", "", seq(|chunk|, k requires 0 <= k < |chunk| => CommandField(chunk[k])), "")
  }

  /**
    The `commands` listing for the table's entries (in the map's iteration
    order): the sorted commands, cut into chunks of 25, one embed per chunk.
  */
  method ListCommands(listed: seq<Commands.Command>) returns (embeds: seq<Embed>)
    ensures var chunks := ChunkSpec(SortedCommands(listed));
      |embeds| == |chunks| && forall i :: 0 <= i < |chunks| ==> embeds[i] == ChunkEmbed(chunks[i])
  {
    var sorted := SortedCommands(listed);
    var chunks := Chunk(sorted);
    embeds := [];
    for c := 0 to |chunks|
      invariant |embeds| == c
      invariant forall i :: 0 <= i < c ==> embeds[i] == ChunkEmbed(chunks[i])
    {
      var chunk := chunks[c];
      var fields: seq<Field> := [];
      for k := 0 to |chunk|
        invariant |fields| == k
        invariant forall j :: 0 <= j < k ==> fields[j] == CommandField(chunk[j])
      {
        fields := fields + [Field(chunk[k].name, HelpValue(chunk[k].helpText), false)];
      }
      embeds := embeds + [Embed("Commands", "", fields, "")];
    }
  }

  /** The fields of a run of embeds, one after the other. */
  function AllFields(embeds: seq<Embed>): seq<Field>
  {
    if |embeds| == 0 then [] else embeds[0].fields + AllFields(embeds[1..])
  }

  /**
    What `commands` sends: ceil(n / 25) embeds titled "Commands", all but the
    last with 25 fields, whose fields read in order are one per command, sorted
    by name, each showing that command's help value.
  */
  lemma ListingShowsEveryCommand(listed: seq<Commands.Command>, embeds: seq<Embed>)
    requires var chunks := ChunkSpec(SortedCommands(listed));
      |embeds| == |chunks| && forall i :: 0 <= i < |chunks| ==> embeds[i] == ChunkEmbed(chunks[i])
    ensures |embeds| == (|listed| + 24) / 25
    ensures forall i :: 0 <= i < |embeds| ==> embeds[i].title == "Commands"
    ensures forall i :: 0 <= i < |embeds| - 1 ==> |embeds[i].fields| == 25
    ensures var sorted := SortedCommands(listed);
      AllFields(embeds) == seq(|sorted|, k requires 0 <= k < |sorted| => CommandField(sorted[k]))
  {
    var sorted := SortedCommands(listed);
    var chunks := ChunkSpec(sorted);
    ChunkSpecProperties(sorted);
    assert |sorted| == |listed| by {
      assert |multiset(sorted)| == |multiset(listed)|;
    }
    AllFieldsOfChunks(chunks, embeds);
  }

  /** No two different commands share a name, as holds of the table's values. */
  ghost predicate NamesDetermine(s: seq<Commands.Command>)
  {
    forall x, y :: x in s && y in s && x.name == y.name ==> x == y
  }

  /** A table keyed by lower-cased name holds no two different commands with one name. */
  lemma TableNamesDetermine(table: map<string, Commands.Command>, listed: seq<Commands.Command>)
    requires forall k :: k in table ==> k == Lower(table[k].name)
    requires forall i :: 0 <= i < |listed| ==> listed[i] in table.Values
    ensures NamesDetermine(listed)
  {
    forall x, y | x in listed && y in listed && x.name == y.name ensures x == y {
      var kx :| kx in table && table[kx] == x;
      var ky :| ky in table && table[ky] == y;
      assert kx == ky;
    }
  }

  predicate SortedByName(s: seq<Commands.Command>)
  {
    forall i, j :: 0 <= i < j < |s| ==> StrLe(s[i].name, s[j].name)
  }

  /** Two name-sorted arrangements of the same commands start with the same command. */
  lemma SortedHeadsAgree(r1: seq<Commands.Command>, r2: seq<Commands.Command>)
    requires |r1| > 0 && |r2| > 0 && multiset(r1) == multiset(r2) && NamesDetermine(r1)
    requires SortedByName(r1) && SortedByName(r2)
    ensures r1[0] == r2[0]
  {
    assert r1[0] in multiset(r2) && r2[0] in multiset(r1);
    var j :| 0 <= j < |r2| && r2[j] == r1[0];
    var i :| 0 <= i < |r1| && r1[i] == r2[0];
    if i > 0 && j > 0 {
      assert StrLe(r1[0].name, r1[i].name) && StrLe(r2[0].name, r2[j].name);
      StrLeAntisymmetric(r1[0].name, r2[0].name);
    }
  }

  /** Dropping a common first command leaves equal multisets. */
  lemma TailsAgree(r1: seq<Commands.Command>, r2: seq<Commands.Command>)
    requires |r1| > 0 && |r2| > 0 && r1[0] == r2[0] && multiset(r1) == multiset(r2)
    ensures multiset(r1[1..]) == multiset(r2[1..])
  {
    assert r1 == [r1[0]] + r1[1..] && r2 == [r2[0]] + r2[1..];
    assert multiset(r1[1..]) == multiset(r1) - multiset{r1[0]};
    assert multiset(r2[1..]) == multiset(r2) - multiset{r2[0]};
  }

  /** The rest of a list whose names are unique, and sorted, keeps both. */
  lemma TailSorted(r: seq<Commands.Command>)
    requires |r| > 0 && SortedByName(r)
    ensures SortedByName(r[1..]) && (NamesDetermine(r) ==> NamesDetermine(r[1..]))
  {
    assert forall x :: x in r[1..] ==> x in r;
  }

  /** Two name-sorted arrangements of the same commands are the same sequence. */
  lemma {:induction false} SortedByNameUnique(r1: seq<Commands.Command>, r2: seq<Commands.Command>)
    requires multiset(r1) == multiset(r2) && NamesDetermine(r1)
    requires SortedByName(r1) && SortedByName(r2)
    ensures r1 == r2
    decreases |r1|
  {
    assert |r1| == |multiset(r1)| == |multiset(r2)| == |r2|;
    if |r1| > 0 {
      SortedHeadsAgree(r1, r2);
      TailsAgree(r1, r2);
      TailSorted(r1);
      TailSorted(r2);
      SortedByNameUnique(r1[1..], r2[1..]);
      assert r1 == [r1[0]] + r1[1..] && r2 == [r2[0]] + r2[1..];
    }
  }

  /**
    The listing does not depend on the order in which the table's commands are
    gathered: Go ranges over its Commands map in an unspecified order, and any
    two orders of the same commands give the same sorted list.
  */
  lemma ListingIgnoresOrder(a: seq<Commands.Command>, b: seq<Commands.Command>)
    requires multiset(a) == multiset(b) && NamesDetermine(a)
    ensures SortedCommands(a) == SortedCommands(b)
  {
    var ra, rb := SortedCommands(a), SortedCommands(b);
    forall x, y | x in ra && y in ra && x.name == y.name ensures x == y {
      assert x in multiset(ra) && y in multiset(ra);
      assert x in a && y in a;
    }
    SortedByNameUnique(ra, rb);
  }

  lemma {:induction false} AllFieldsOfChunks(chunks: seq<seq<Commands.Command>>, embeds: seq<Embed>)
    requires |embeds| == |chunks| && forall i :: 0 <= i < |chunks| ==> embeds[i] == ChunkEmbed(chunks[i])
    ensures var f := Flatten(chunks);
      AllFields(embeds) == seq(|f|, k requires 0 <= k < |f| => CommandField(f[k]))
  {
    if |chunks| > 0 {
      AllFieldsOfChunks(chunks[1..], embeds[1..]);
      var f := Flatten(chunks);
      var tail := Flatten(chunks[1..]);
      assert f == chunks[0] + tail;
      var e := ChunkEmbed(chunks[0]);
      assert embeds[0] == e;
      var want := seq(|f|, k requires 0 <= k < |f| => CommandField(f[k]));
      var got := AllFields(embeds);
      assert got == e.fields + AllFields(embeds[1..]);
      assert |got| == |want|;
      forall k | 0 <= k < |f| ensures got[k] == want[k] {
        if k < |chunks[0]| {
          assert got[k] == e.fields[k];
        } else {
          assert got[k] == AllFields(embeds[1..])[k - |chunks[0]|];
          assert f[k] == tail[k - |chunks[0]|];
        }
      }
    }
  }

  // ---------------------------------------------------------------- random replies

  const EightBallResponses: seq<string> := [
    "Don\U{2019}t count on it", "Outlook not so good", "My sources say no", "Very doubtful", "My reply is no", "It is certain",
    "Without a doubt", "You may rely on it", "Yes definitely", "It is decidedly so", "As I see it, yes", "Most likely",
    "Yes", "Outlook good", "Signs point to yes", "Reply hazy try again", "Better not tell you now", "Ask again later",
    "Cannot predict now", "Concentrate and ask again"]

  /** eightBall: the mention and the response the draw (rand.Intn(20), so below 20) picks, with a full stop. */
  function EightBallReply(mention: string, draw: nat): (r: string)
    requires draw < |EightBallResponses|
    ensures exists k :: 0 <= k < |EightBallResponses| && r == mention + " " + EightBallResponses[k] + "."
  {
    mention + " " + EightBallResponses[draw] + "."
  }

  const CoinSides: seq<string> := ["Tails", "Heads"]

  /** flipCoin: rand.Intn(2) picks tails (0) or heads (1). */
  function FlipCoinReply(mention: string, draw: nat): (r: string)
    requires draw < 2
    ensures r == mention + " Flipped a coin and it landed on: " + (if draw == 0 then "Tails" else "Heads")
  {
    mention + " Flipped a coin and it landed on: " + CoinSides[draw]
  }

  /** rollDice's total: rand.Intn(11) + 2. */
  function DiceTotal(draw: nat): (t: nat)
    requires draw < 11
    ensures 2 <= t <= 12
    ensures t - 2 == draw
  {
    draw + 2
  }

  function DiceReply(mention: string, draw: nat): string
    requires draw < 11
  {
    mention + " Rolled two dice for a total of: " + NatToDecimal(DiceTotal(draw)) + " out of 12"
  }

  /** Every total from 2 to 12 has exactly one draw, and the reply names that total. */
  lemma DiceTotalsCovered(t: nat)
    requires 2 <= t <= 12
    ensures DiceTotal(t - 2) == t
    ensures forall d: nat :: d < 11 && DiceTotal(d) == t ==> d == t - 2
  {
  }
}
