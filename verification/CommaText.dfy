/** Text with commas between its parts. */
module CommaText {
  function Comma(s: string): (k: nat)
    requires ',' in s
    ensures k < |s| && s[k] == ',' && ',' !in s[..k]
  {
    if s[0] == ',' then 0 else
      var k := 1 + Comma(s[1..]);
      assert s[..k] == [s[0]] + s[1..][..k - 1];
      k
  }

  function Join(fields: seq<string>): string {
    if fields == [] then []
    else if |fields| == 1 then fields[0]
    else fields[0] + "," + Join(fields[1..])
  }

  lemma {:induction false} JoinSplit(first: string, rest: seq<string>)
    ensures Join([first] + rest) == if rest == [] then first else first + "," + Join(rest)
  {
    assert ([first] + rest)[1..] == rest;
  }

  predicate CommaFree(fields: seq<string>) {
    forall f :: f in fields ==> ',' !in f
  }
}
