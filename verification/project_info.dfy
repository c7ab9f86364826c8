/**
 * getProjectInfo (converter.js:139-147): the project record derived from the
 * document's `service` name through the case helpers.
 */
module ProjectInfo {
  import opened Casing
  import CaseProperties

  datatype Info = Info(
    projectDesc: string,
    projectName: string,
    deploymentName: string,
    deploymentRegion: string,
    deploymentProfile: string)

  const REGION := "eu-west-1"
  const PROFILE := "simplify-eu"

  /** `getProjectInfo(o)`, given `o.service`. */
  function GetProjectInfo(service: string): (info: Info)
    ensures info.projectName == ToPascalCase(service)
    // the project name is an identifier: letters and digits only
    ensures AllAlnum(info.projectName)
    ensures info.deploymentName == info.projectName + "Demo"
    ensures info.projectDesc == ToTextSpace(info.projectName)
    ensures info.deploymentRegion == REGION && info.deploymentProfile == PROFILE
    // a service name that already is an identifier only has its first letter raised
    ensures service != [] && AllAlnum(service) ==> info.projectName == [ToUpper(service[0])] + service[1..]
  {
    var name := ToPascalCase(service);
    CaseProperties.PascalIsAlnum(service);
    assert service != [] && AllAlnum(service) ==> name == [ToUpper(service[0])] + service[1..] by {
      if service != [] && AllAlnum(service) {
        CaseProperties.PascalOfAlnum(service);
      }
    }
    Info(ToTextSpace(name), name, name + "Demo", REGION, PROFILE)
  }

  /**
   * For a service name made of letters and digits, the description is the
   * project name with a space before every capital after the first: `myService`
   * becomes `MyService`, described as `My Service`.
   */
  lemma ProjectDescOfAlnum(service: string)
    requires service != [] && AllAlnum(service)
    ensures GetProjectInfo(service).projectDesc == [ToUpper(service[0])] + MarkCapitals(service[1..], ' ')
  {
    var name := GetProjectInfo(service).projectName;
    assert name == [ToUpper(service[0])] + service[1..];
    assert name[1..] == service[1..];
    assert !IsSpace(name[0]) && !IsSpace(name[|name| - 1]) by {
      assert name[0] in name && name[|name| - 1] in name;
    }
    CaseProperties.TextSpaceShape(name);
    assert ToUpper(name[0]) == ToUpper(service[0]);
  }
}
