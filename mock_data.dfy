/** The two cases the store starts with. */
module MockData {
  import opened Wrappers
  import opened Types
  import ClientForm
  import CaseStore
  import Seqs

  /** The five slots, with the ones whose ids are listed marked as uploaded. */
  function SlotsUploaded(uploadedIds: set<string>): seq<Document> {
    var base := ClientForm.InitialDocuments();
    seq(|base|, i requires 0 <= i < |base| => base[i].(uploaded := base[i].id in uploadedIds))
  }

  /** Acme: an address update held by OKW, with its first two documents uploaded. */
  function AcmeCase(): Case {
    Case("1",
         ClientInfo("Acme Corporation", "123 Business Ave, New York, NY 10001", "2024-01-15",
                    Some("C12345"), Some("contact@acme.com")),
         [ChangeRequest("1", "HDI-001", "United States", "Address Update")],
         SlotsUploaded({"1", "2"}),
         [], WithOkw, "OKW Team",
         1736935200000,   // 2025-01-15T10:00:00Z
         1737019800000)   // 2025-01-16T09:30:00Z
  }

  /** Global Tech: an entity type change with the CDD team, nothing uploaded. */
  function GlobalTechCase(): Case {
    Case("2",
         ClientInfo("Global Tech Solutions", "456 Tech Blvd, San Francisco, CA 94105", "2024-01-18",
                    Some("C67890"), Some("info@globaltech.io")),
         [ChangeRequest("2", "HDI-002", "United States", "Entity Type Change")],
         ClientForm.InitialDocuments(),
         [], WithCdd, "CDD Team",
         1737210000000,   // 2025-01-18T14:20:00Z
         1737285300000)   // 2025-01-19T11:15:00Z
  }

  function MockCases(): seq<Case> {
    [AcmeCase(), GlobalTechCase()]
  }

  /** On the initial data the client sees both cases, OKW sees Acme's and CDD sees Global Tech's. */
  lemma InitialDashboards()
    ensures CaseStore.CasesForRole(MockCases(), Client) == MockCases()
    ensures CaseStore.CasesForRole(MockCases(), Okw) == [AcmeCase()]
    ensures CaseStore.CasesForRole(MockCases(), Cdd) == [GlobalTechCase()]
  {
    var cases := MockCases();
    assert cases[1..] == [GlobalTechCase()] && cases[1..][1..] == [];
    assert Seqs.Filter((c: Case) => c.status == WithOkw || c.status == Pending, cases) == [AcmeCase()];
    assert Seqs.Filter((c: Case) => c.status == WithCdd, cases) == [GlobalTechCase()];
  }
}
