/** The built-in template list of dynamo_mcp/utils/init_template_db.py and the seeding
    run over it. Kept apart from the seeder so that its long literal stays out of the
    other proofs. */
module SeedData {
  import opened Catalog
  import opened Seeder

  /** The built-in template list, as the CSV reader yields its data rows. */
  const DefaultTemplates: seq<CsvRow> := [
    CsvRow("Python", "https://github.com/audreyfeldroy/cookiecutter-pypackage"),
    CsvRow("Python", "https://github.com/cjolowicz/cookiecutter-hypermodern-python"),
    CsvRow("Data Science", "https://github.com/drivendataorg/cookiecutter-data-science"),
    CsvRow("Django", "https://github.com/cookiecutter/cookiecutter-django"),
    CsvRow("Flask", "https://github.com/cookiecutter-flask/cookiecutter-flask"),
    CsvRow("FastAPI", "https://github.com/arthurhenrique/cookiecutter-fastapi"),
    CsvRow("React", "https://github.com/vchaptsev/cookiecutter-django-vue"),
    CsvRow("AWS", "https://github.com/aws-samples/cookiecutter-aws-sam-python"),
    CsvRow("Machine Learning", "https://github.com/fmind/cookiecutter-mlops-package"),
    CsvRow("Docker", "https://github.com/docker-science/cookiecutter-docker-science"),
    CsvRow("Jupyter", "https://github.com/jupyter-widgets/widget-cookiecutter"),
    CsvRow("Ansible", "https://github.com/iknite/cookiecutter-ansible-role"),
    CsvRow("Terraform", "https://github.com/TerraformInDepth/terraform-module-cookiecutter"),
    CsvRow("Rust", "https://github.com/microsoft/cookiecutter-rust-actix-clean-architecture"),
    CsvRow("Go", "https://github.com/lacion/cookiecutter-golang"),
    CsvRow("JavaScript", "https://github.com/jupyterlab/extension-cookiecutter-ts"),
    CsvRow("TypeScript", "https://github.com/jupyterlab/mimerender-cookiecutter-ts"),
    CsvRow("C++", "https://github.com/ssciwr/cookiecutter-cpp-project"),
    CsvRow("Qt", "https://github.com/agateau/cookiecutter-qt-app"),
    CsvRow("PyTorch", "https://github.com/khornlund/cookiecutter-pytorch"),
    CsvRow("TensorFlow", "https://github.com/tdeboissiere/cookiecutter-deeplearning"),
    CsvRow("Jupyter Book", "https://github.com/executablebooks/cookiecutter-jupyter-book"),
    CsvRow("Streamlit", "https://github.com/andymcdgeo/cookiecutter-streamlit"),
    CsvRow("FastAPI-PostgreSQL", "https://github.com/tiangolo/full-stack-fastapi-postgresql"),
    CsvRow("Django-REST", "https://github.com/agconti/cookiecutter-django-rest"),
    CsvRow("Science", "https://github.com/jbusecke/cookiecutter-science-project"),
    CsvRow("Bioinformatics", "https://github.com/maxplanck-ie/cookiecutter-bioinformatics-project"),
    CsvRow("LaTeX", "https://github.com/selimb/cookiecutter-latex-article"),
    CsvRow("Kotlin", "https://github.com/m-x-k/cookiecutter-kotlin-gradle"),
    CsvRow("Home Assistant", "https://github.com/oncleben31/cookiecutter-homeassistant-custom-component"),
    CsvRow(".NET", "https://github.com/aws-samples/cookiecutter-aws-sam-dotnet"),
    CsvRow("Ruby", "https://github.com/customink/cookiecutter-ruby"),
    CsvRow("Scala", "https://github.com/jpzk/cookiecutter-scala-spark"),
    CsvRow("Elixir", "https://github.com/mattvonrocketstein/cookiecutter-elixir-project"),
    CsvRow("R", "https://github.com/associatedpress/cookiecutter-r-project"),
    CsvRow("Julia", "https://github.com/xtensor-stack/xtensor-julia-cookiecutter"),
    CsvRow("MATLAB", "https://github.com/gvoysey/cookiecutter-python-scientific"),
    CsvRow("Arduino", "https://github.com/BrianPugh/cookiecutter-esp32-webserver"),
    CsvRow("ROS", "https://github.com/ros-industrial/cookiecutter-ros-industrial"),
    CsvRow("Kubernetes", "https://github.com/uzi0espil/cookiecutter-django-k8s"),
    CsvRow("Serverless", "https://github.com/ran-isenberg/cookiecutter-serverless-python"),
    CsvRow("Polars", "https://github.com/MarcoGorelli/cookiecutter-polars-plugins"),
    CsvRow("ML Research", "https://github.com/csinva/cookiecutter-ml-research"),
    CsvRow("Education", "https://github.com/mikeckennedy/cookiecutter-course"),
    CsvRow("Documentation", "https://github.com/pawamoy/cookiecutter-awesome"),
    CsvRow("Chrome Extension", "https://github.com/audreyfeldroy/cookiecutter-chrome-extension"),
    CsvRow("Blender", "https://github.com/joshuaskelly/cookiecutter-blender-addon"),
    CsvRow("Unity", "https://github.com/hackebrot/cookiecutter-kivy"),
    CsvRow("Godot", "https://github.com/lockie/cookiecutter-lisp-game"),
    CsvRow("SuperCollider", "https://github.com/supercollider/cookiecutter-supercollider-plugin"),
    CsvRow("QGIS", "https://github.com/GispoCoding/cookiecutter-qgis-plugin"),
    CsvRow("WordPress", "https://github.com/Jean-Zombie/cookiecutter-django-wagtail"),
    CsvRow("Shopify", "https://github.com/awesto/cookiecutter-django-shop"),
    CsvRow("Moodle", "https://github.com/openedx/edx-cookiecutters"),
    CsvRow("Salesforce", "https://github.com/datacoves/cookiecutter-dbt"),
    CsvRow("Zapier", "https://github.com/narfman0/cookiecutter-mobile-backend")
  ]

  /** `initialize_database(reset)`: seed the table from the built-in list. At most one
      row per entry of the list is added, and when no insert fails all of them are, named
      as the list derives them. */
  method InitializeDefault(table: Table, reset: bool, failing: set<nat>) returns (count: nat, names: seq<string>)
    requires table.Valid()
    modifies table
    ensures table.Valid()
    ensures count == |names| && count <= |DefaultTemplates| == 56
    ensures (forall k :: 0 <= k < |DefaultTemplates| ==> k !in failing) ==>
              count == |DefaultTemplates| && names == NamesOf(ParseAll(DefaultTemplates))
  {
    count, names := InitializeDatabase(table, reset, DefaultTemplates, failing);
    SurvivorsBound(ParseAll(DefaultTemplates), failing);
  }
}
