/**
 * `RUPNP::Service` (lib/rupnp/service.rb): a device-side service built from its
 * description. `fetch` settles the service's deferrable: it fails when there is no SCPD
 * URL and succeeds with the service otherwise.
 */
module UpnpService {
  import opened RubyText

  /** The state of an `EM::Deferrable`. */
  datatype Status = Pending | Failed | Succeeded

  class Service {
    var urlBase: string
    var description: map<string, string>
    var serviceType: string
    var scpdUrl: string
    var controlUrl: string
    var eventSubUrl: string
    var actions: seq<string>
    var status: Status

    /** `Service.new(url_base, scpd)` */
    constructor(urlBase: string, scpd: map<string, string>)
      ensures this.urlBase == urlBase && description == scpd
      ensures serviceType == FieldText(scpd, "service_type") && scpdUrl == FieldText(scpd, "scpdurl")
      ensures controlUrl == FieldText(scpd, "control_url") && eventSubUrl == FieldText(scpd, "event_sub_url")
      ensures actions == [] && status == Pending
    {
      this.urlBase := urlBase;
      description := scpd;
      serviceType := FieldText(scpd, "service_type");
      scpdUrl := FieldText(scpd, "scpdurl");
      controlUrl := FieldText(scpd, "control_url");
      eventSubUrl := FieldText(scpd, "event_sub_url");
      actions := [];
      status := Pending;
    }

    /** `fetch`: fail without an SCPD URL, else succeed (with the service itself). */
    method Fetch()
      modifies this`status
      ensures status == Failed <==> scpdUrl == ""
      ensures status == Succeeded <==> scpdUrl != ""
    {
      if scpdUrl == "" {
        status := Failed;
        return;
      }
      status := Succeeded;
    }
  }

  /** A service whose description has no SCPD URL always fails to fetch. */
  method FetchWithoutScpd(urlBase: string, scpd: map<string, string>) returns (s: Status)
    requires "scpdurl" !in scpd || scpd["scpdurl"] == ""
    ensures s == Failed
  {
    var service := new Service(urlBase, scpd);
    service.Fetch();
    s := service.status;
  }
}
