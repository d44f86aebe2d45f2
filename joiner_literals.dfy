/**
 * The URLs of the joiner's unit tests, assembled from scheme, host and path. Each equality is
 * proved one concatenation at a time, apart from the URI theory. These lemmas state nothing
 * about the resolver: they only spare the verifier long string literals inside the test cases
 * of ResolverCases.
 */
module JoinerLiterals {

  lemma CnrSite()
    ensures "https" + "://" + "www.cnr.it" == "https://www.cnr.it"
    ensures "https" + "://" + "www.cnr.it" + "/" == "https://www.cnr.it/"
    ensures "https" + "://" + "www.cnr.it" + "/#" == "https://www.cnr.it/#"
  {
  }

  lemma CnrPage()
    ensures "https" + "://" + "www.cnr.it" + "/" + "amministrazione-trasparente"
         == "https://www.cnr.it/amministrazione-trasparente"
  {
    CnrSite();
    CnrPageStep();
  }

  lemma CnrPageStep()
    ensures "https://www.cnr.it/" + "amministrazione-trasparente" == "https://www.cnr.it/amministrazione-trasparente"
  {
  }

  lemma CnrRootedSegment()
    ensures "/" + "amministrazione-trasparente" == "/amministrazione-trasparente"
  {
  }

  lemma CnrUpSegment()
    ensures "../" + "amministrazione-trasparente" == "../amministrazione-trasparente"
  {
  }

  lemma ParcoAvetoSite()
    ensures "https" + "://" + "www.parcoaveto.it" + "/" == "https://www.parcoaveto.it/"
  {
  }

  lemma ParcoAvetoPageStep()
    ensures "https://www.parcoaveto.it/" + "amministrazione-trasparente.php"
         == "https://www.parcoaveto.it/amministrazione-trasparente.php"
  {
  }

  lemma ParcoAvetoQueryStep()
    ensures "https://www.parcoaveto.it/amministrazione-trasparente.php" + "?" + "l1=1"
         == "https://www.parcoaveto.it/amministrazione-trasparente.php?l1=1"
  {
  }

  lemma ParcoAvetoPage()
    ensures "https" + "://" + "www.parcoaveto.it" + "/" + "amministrazione-trasparente.php"
         == "https://www.parcoaveto.it/amministrazione-trasparente.php"
    ensures "https" + "://" + "www.parcoaveto.it" + "/" + "amministrazione-trasparente.php" + "?" + "l1=1"
         == "https://www.parcoaveto.it/amministrazione-trasparente.php?l1=1"
    ensures "?" + "l1=1" == "?l1=1"
  {
    ParcoAvetoSite();
    ParcoAvetoPageStep();
    ParcoAvetoQueryStep();
  }

  lemma TrasparenzaSite()
    ensures "https" + "://" + "trasparenza-pa.net" == "https://trasparenza-pa.net"
  {
  }

  lemma TrasparenzaQueryStep()
    ensures "https://trasparenza-pa.net" + "/?" + "codcli=SC26149" == "https://trasparenza-pa.net/?codcli=SC26149"
  {
  }

  lemma TrasparenzaPage()
    ensures "https" + "://" + "trasparenza-pa.net" + "/?" + "codcli=SC26149"
         == "https://trasparenza-pa.net/?codcli=SC26149"
  {
    TrasparenzaSite();
    TrasparenzaQueryStep();
  }
}
