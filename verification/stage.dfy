/** `getStage`: the deployment stage read off the page's hostname. */
module Stage {
  import opened Text

  datatype Stage = Testing | Dev | Prod | Unknown

  const ProdHost := "fortunasbet.com"
  const TestingHost := "testing." + ProdHost
  const LocalHost := "localhost"

  /** The trimmed hostname is tested for the testing host, then localhost, then the production domain. */
  function GetStage(hostname: string): (r: Stage)
    ensures var h := Trim(hostname);
            && (r == Testing <==> Includes(h, TestingHost))
            && (r == Dev <==> !Includes(h, TestingHost) && Includes(h, LocalHost))
            && (r == Prod <==> !Includes(h, TestingHost) && !Includes(h, LocalHost) && Includes(h, ProdHost))
            && (r == Unknown <==> !Includes(h, TestingHost) && !Includes(h, LocalHost) && !Includes(h, ProdHost))
  {
    var h := Trim(hostname);
    if Includes(h, TestingHost) then Testing
    else if Includes(h, LocalHost) then Dev
    else if Includes(h, ProdHost) then Prod
    else Unknown
  }

  /** Every testing hostname also contains the production domain, so the testing test must come first. */
  lemma TestingHostIncludesProd(h: string)
    requires Includes(h, TestingHost)
    ensures Includes(h, ProdHost)
  {
    assert OccursAt(TestingHost, ProdHost, 8) by {
      assert TestingHost[8..8 + |ProdHost|] == ProdHost;
    }
    IncludesWithin(h, TestingHost, ProdHost, 8);
  }

  /** Surrounding whitespace in the hostname never changes the stage. */
  lemma StageOfTrimmed(hostname: string)
    ensures GetStage(Trim(hostname)) == GetStage(hostname)
  {
    TrimIdempotent(hostname);
  }
}
